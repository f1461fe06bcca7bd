/** Each write of a row, and taking a write back, keeps the invariant. */
module MvccWrites {
  import opened Bytes
  import opened Distinctness
  import opened VersionChain
  import opened SnapshotSpec
  import opened MvccInvariant
  import opened MvccHistory
  import opened MvccSteps
  import opened MvccReads

  // What every write of one row has in common -----------------------------------------------------

  /** `s'` is `s` after transaction `t` logged one write of `op.row`. */
  ghost predicate Logged(s: State, s': State, t: nat, op: UndoOp, w: Write) {
    && t in s.undo && t in s.spec.writes && op.row == w.row
    && (op.row in s.owner ==> s.owner[op.row] == t)
    && s'.undo == s.undo[t := s.undo[t] + [op]]
    && s'.spec.writes == s.spec.writes[t := s.spec.writes[t] + [w]]
    && s'.owner == s.owner[op.row := t]
    && SameReaders(s, s')
  }

  /** Nobody begins, ends or opens anything, and no other row is touched. */
  ghost predicate SameReaders(s: State, s': State) {
    && s'.nextTxn == s.nextTxn && s'.nextScan == s.nextScan && s.nextRow <= s'.nextRow
    && s'.active == s.active && s'.pinned == s.pinned && s'.scans == s.scans && s'.scanAt == s.scanAt
    && s'.order == s.order
    && s'.spec.nextTxn == s.spec.nextTxn && s'.spec.nextScan == s.spec.nextScan
    && s'.spec.history == s.spec.history && s'.spec.changed == s.spec.changed
    && s'.spec.at == s.spec.at && s'.spec.cursors == s.spec.cursors
  }

  lemma ReadersCalm(s: State, s': State)
    requires SameReaders(s, s')
    ensures Calm(s, s') && Quiet(s, s')
  {
  }

  lemma LoggedTxns(s: State, s': State, t: nat, op: UndoOp, w: Write)
    requires TxnsOk(s) && Logged(s, s', t, op, w)
    requires s'.nextRow == s'.spec.nextRow
    requires s'.spec.latch.Some? ==> s'.spec.latch.value.0 in s'.spec.at
    ensures TxnsOk(s')
  {
    hide LogsOk, RowOps;
    LoggedLogs(s, s', t, op, w);
  }

  lemma LoggedLogs(s: State, s': State, t: nat, op: UndoOp, w: Write)
    requires Aligned(s) && LogsOk(s) && Logged(s, s', t, op, w)
    ensures LogsOk(s')
  {
    hide RowWrites, RowOps, WellFormed;
    forall x | x in s'.active ensures TxnOk(s', x) {
      assert TxnOk(s, x);
      forall row: nat | RowOps(s'.undo[x], row) != [] ensures row in s'.owner && s'.owner[row] == x {
        if x == t { RowOpsAppend(s.undo[t], op, row); }
      }
    }
  }

  lemma LoggedOps(s: State, s': State, t: nat, op: UndoOp, w: Write, row: nat)
    requires TxnsOk(s) && RowOk(s, row) && Logged(s, s', t, op, w)
    ensures row != op.row ==> Ops(s', row) == Ops(s, row) && Vals(s', row) == Vals(s, row)
    ensures row == op.row ==> Ops(s', row) == Ops(s, row) + [op] && Vals(s', row) == Vals(s, row) + [w.value]
  {
    hide RowWrites, RowOps, Stacked, Base, Bottom, Linked;
    RowOpsAppend(s.undo[t], op, row);
    RowWritesAppend(s.spec.writes[t], w, row);
    if row == op.row { WroteIsOwned(s, t, row); }
  }

  lemma {:induction false} LoggedOther(s: State, s': State, t: nat, op: UndoOp, w: Write, row: nat)
    requires TxnsOk(s) && RowOk(s, row) && Logged(s, s', t, op, w) && row != op.row
    requires row in s.rows <==> row in s'.rows
    requires row in s.hist <==> row in s'.hist
    requires row in s.rows && row in s.hist ==> s'.rows[row] == s.rows[row] && s'.hist[row] == s.hist[row]
    requires row in s.hist ==> Linked(s'.arena, s'.use, row, s.hist[row])
    ensures RowOk(s', row)
  {
    hide RowWrites, RowOps, Stacked, Base, Bottom, Linked, Quiet, Ops, Vals;
    LoggedOps(s, s', t, op, w, row);
    ReadersCalm(s, s');
    RowKept(s, s', row);
  }

  /** The views of everyone else, and the scans of a transaction that changes no row they read. */
  lemma LoggedViews(s: State, s': State, t: nat, op: UndoOp, w: Write)
    requires TxnsOk(s) && ViewsOk(s) && Logged(s, s', t, op, w)
    requires NoScans(s, t) || op.row >= s.nextRow
    ensures ViewsOk(s')
  {
    hide RowWrites, Expected, ViewOk, Calm, Quiet;
    ReadersCalm(s, s');
    forall x: nat ensures PinnedOk(s', x) {
      assert PinnedOk(s, x);
      if x in s.pinned { PinnedKept(s, s', x); }
    }
    forall k: nat ensures ScanOk(s', k) {
      assert ScanOk(s, k);
      if k in s.scans {
        forall row: nat | row < s.scans[k].end
          ensures RowWrites(s'.spec.writes[s.scans[k].txn], row) == RowWrites(s.spec.writes[s.scans[k].txn], row)
        {
          if s.scans[k].txn == t { RowWritesAppend(s.spec.writes[t], w, row); }
        }
        ScanKept(s, s', k);
      }
    }
  }

  lemma LoggedSaw(s: State, s': State, t: nat, op: UndoOp, w: Write)
    requires TxnsOk(s) && RowsOk(s) && Logged(s, s', t, op, w)
    requires NoScans(s, t) || op.row !in s.spec.changed
    requires op.row in s.spec.changed && t in s.spec.at ==> s.spec.changed[op.row] <= s.spec.at[t]
    ensures forall row: nat {:trigger Saw(s', row)} :: Saw(s', row)
  {
    hide RowOk;
    forall row: nat ensures Saw(s', row) { assert Saw(s, row); }
  }

  // Insert ---------------------------------------------------------------------------------------

  ghost function InsertedState(s: State, t: nat, tuple: Tuple): State {
    var row, v := s.nextRow, Version(Fresh(t), tuple);
    s.(rows := s.rows[row := v], hist := s.hist[row := [v]], owner := s.owner[row := t], nextRow := row + 1,
       undo := s.undo[t := LogOf(s, t) + [Inserted(row)]],
       spec := Append(s.spec, t, Write(row, Some(tuple))).(nextRow := s.spec.nextRow + 1))
  }

  lemma InsertRow(s: State, t: nat, tuple: Tuple)
    requires TxnsOk(s) && RowsOk(s) && t in s.active
    ensures RowOk(InsertedState(s, t, tuple), s.nextRow)
  {
    hide RowWrites, RowOps, LiveTime;
    var row, s' := s.nextRow, InsertedState(s, t, tuple);
    UnusedRow(s, row);
    assert RowOk(s, row);
    LoggedOps(s, s', t, Inserted(row), Write(row, Some(tuple)), row);
    assert Ops(s', row) == [Inserted(row)] && Vals(s', row) == [Some(tuple)];
    assert Base(s, row, []);
    ReadersCalm(s, s');
    BaseKept(s, s', row, []);
  }

  lemma InsertRows(s: State, t: nat, tuple: Tuple)
    requires TxnsOk(s) && RowsOk(s) && t in s.active
    ensures RowsOk(InsertedState(s, t, tuple))
  {
    hide RowWrites, RowOps, Stacked, Base, Bottom, Linked, Ops, Vals, LogOk;
    var row, s' := s.nextRow, InsertedState(s, t, tuple);
    UnusedRow(s, row);
    InsertRow(s, t, tuple);
    forall r: nat ensures RowOk(s', r) {
      assert RowOk(s, r);
      if r != row { LoggedOther(s, s', t, Inserted(row), Write(row, Some(tuple)), r); }
    }
    LoggedSaw(s, s', t, Inserted(row), Write(row, Some(tuple)));
  }

  lemma InsertSlots(s: State, t: nat, tuple: Tuple)
    requires SlotsOk(s) && t in s.undo && t in s.spec.writes && s.nextRow !in s.hist
    ensures SlotsOk(InsertedState(s, t, tuple))
  {
    var s' := InsertedState(s, t, tuple);
    forall i: nat ensures SlotOk(s', i) { assert SlotOk(s, i); }
  }

  lemma InsertKeeps(s: State, t: nat, tuple: Tuple)
    requires Inv(s) && t in s.active && s.parking.None?
    ensures Inv(InsertedState(s, t, tuple))
  {
    hide RowsOk, ViewsOk, SlotsOk, RowWrites, RowOps;
    var row, s' := s.nextRow, InsertedState(s, t, tuple);
    UnusedRow(s, row);
    LoggedTxns(s, s', t, Inserted(row), Write(row, Some(tuple)));
    LoggedViews(s, s', t, Inserted(row), Write(row, Some(tuple)));
    InsertRows(s, t, tuple);
    InsertSlots(s, t, tuple);
    PassesKept(s, s');
  }

  // Delete ---------------------------------------------------------------------------------------

  function Dead(v: Version, t: nat): Version { v.(meta := v.meta.(xmax := t)) }

  ghost function DeletedState(s: State, t: nat, row: nat): State {
    var v := LeafOf(s, row);
    s.(rows := s.rows[row := Dead(v, t)], hist := s.hist[row := [Dead(v, t)] + Older(Hist(s, row))],
       owner := s.owner[row := t], undo := s.undo[t := LogOf(s, t) + [Deleted(row, v)]],
       spec := Append(s.spec, t, Write(row, None)))
  }

  lemma {:induction false} LinkedHead(arena: Arena, use: map<nat, Use>, row: nat, h: seq<Version>, v: Version)
    requires Linked(arena, use, row, h) && v.meta.undo == h[0].meta.undo
    ensures Linked(arena, use, row, [v] + h[1..])
  {
    assert ([v] + h[1..])[1..] == h[1..];
  }

  lemma {:induction false} StackDelete(h: seq<Version>, t: nat, ops: seq<UndoOp>, vals: seq<Option<Tuple>>, row: nat)
    requires Stacked(h, t, ops, vals) && h != [] && h[0].meta.xmax == NO_XMAX
    ensures var h' := [Dead(h[0], t)] + h[1..];
            var ops' := ops + [Deleted(row, h[0])];
            Stacked(h', t, ops', vals + [None]) && Bottom(h', ops') == Bottom(h, ops)
  {
    var h', n := [Dead(h[0], t)] + h[1..], |ops|;
    assert (ops + [Deleted(row, h[0])])[..n] == ops && (vals + [None])[..n] == vals;
    assert [Live(h'[0])] + h'[1..] == h;
  }

  lemma {:induction false} StackUpdate(h: seq<Version>, v: Version, t: nat, ops: seq<UndoOp>, vals: seq<Option<Tuple>>, row: nat)
    requires Stacked(h, t, ops, vals) && h != [] && h[0].meta.xmax == NO_XMAX
    requires v.meta.xmin == t && v.meta.xmax == NO_XMAX
    ensures var ops' := ops + [Updated(row, h[0], v.meta.undo)];
            Stacked([v] + h, t, ops', vals + [Some(v.tuple)]) && Bottom([v] + h, ops') == Bottom(h, ops)
  {
    var n := |ops|;
    assert (ops + [Updated(row, h[0], v.meta.undo)])[..n] == ops && (vals + [Some(v.tuple)])[..n] == vals;
    assert ([v] + h)[1..] == h;
  }

  lemma {:induction false} Restack(s: State, t: nat, row: nat)
    requires RowOk(s, row) && (row in s.owner ==> s.owner[row] == t)
    ensures Stacked(Hist(s, row), t, Ops(s, row), Vals(s, row))
  {
  }

  lemma DeleteRow(s: State, t: nat, row: nat)
    requires TxnsOk(s) && RowOk(s, row) && t in s.active && MayWrite(s, t, row)
    ensures RowOk(DeletedState(s, t, row), row)
  {
    hide RowWrites, RowOps, Base, Stacked, Bottom, Quiet;
    var s', h := DeletedState(s, t, row), s.hist[row];
    Restack(s, t, row);
    LoggedOps(s, s', t, Deleted(row, h[0]), Write(row, None), row);
    StackDelete(h, t, Ops(s, row), Vals(s, row), row);
    LinkedHead(s.arena, s.use, row, h, Dead(h[0], t));
    ReadersCalm(s, s');
    BaseKept(s, s', row, Bottom(h, Ops(s, row)));
  }

  lemma DeleteRows(s: State, t: nat, row: nat)
    requires TxnsOk(s) && RowsOk(s) && NoScans(s, t) && t in s.active && MayWrite(s, t, row) && row in s.hist && s.hist[row] != []
    ensures RowsOk(DeletedState(s, t, row))
  {
    hide RowWrites, RowOps, Stacked, Base, Bottom, Linked, Ops, Vals, LogOk;
    var s' := DeletedState(s, t, row);
    assert RowOk(s, row);
    DeleteRow(s, t, row);
    forall r: nat ensures RowOk(s', r) {
      assert RowOk(s, r);
      if r != row { LoggedOther(s, s', t, Deleted(row, s.rows[row]), Write(row, None), r); }
    }
    LoggedSaw(s, s', t, Deleted(row, s.rows[row]), Write(row, None));
  }

  lemma DeleteSlots(s: State, t: nat, row: nat)
    requires SlotsOk(s) && t in s.undo && t in s.spec.writes && row in s.rows
    requires row in s.hist && s.hist[row] != [] && s.hist[row][0] == s.rows[row]
    ensures SlotsOk(DeletedState(s, t, row))
  {
    var s' := DeletedState(s, t, row);
    forall i: nat ensures SlotOk(s', i) { assert SlotOk(s, i); }
  }

  lemma DeleteKeeps(s: State, t: nat, row: nat)
    requires Inv(s) && t in s.active && s.parking.None? && NoScans(s, t) && MayWrite(s, t, row) && row in s.hist && s.hist[row] != []
    ensures Inv(DeletedState(s, t, row))
  {
    hide ViewsOk, SlotsOk, RowWrites, RowOps, Stacked, Base, Bottom, Ops, Vals;
    var s' := DeletedState(s, t, row);
    assert RowOk(s, row);
    LoggedTxns(s, s', t, Deleted(row, s.rows[row]), Write(row, None));
    LoggedViews(s, s', t, Deleted(row, s.rows[row]), Write(row, None));
    DeleteRows(s, t, row);
    DeleteSlots(s, t, row);
    PassesKept(s, s');
  }

  // Update: park, then install -------------------------------------------------------------------

  /** Where the next version is parked: a freed slot if there is one, else a new one. */
  ghost function ParkedState(s: State, t: nat, row: nat): State {
    var v := Some(LeafOf(s, row));
    var slot := if s.free == [] then |s.arena| else s.free[|s.free| - 1];
    s.(arena := if slot < |s.arena| then s.arena[slot := v] else s.arena + [v],
       free := if s.free == [] then [] else s.free[..|s.free| - 1],
       use := s.use[slot := Held], parking := Some(Parking(t, row, slot)), spec := s.spec.(latch := Some((t, row))))
  }

  lemma ParkSlots(s: State, t: nat, row: nat)
    requires SlotsOk(s) && s.parking.None? && row in s.rows && |s.arena| < NO_UNDO
    ensures SlotsOk(ParkedState(s, t, row))
    ensures ParkedState(s, t, row).parking.value.slot !in s.use
  {
    var s' := ParkedState(s, t, row);
    var slot := s'.parking.value.slot;
    assert SlotOk(s, slot);
    if s.free != [] { assert s.free[|s.free| - 1] in s.free; }
    forall i: nat ensures SlotOk(s', i) {
      assert SlotOk(s, i);
      if s.free != [] && i != slot {
        assert i in s.free <==> i in s'.free by {
          assert s.free == s'.free + [slot];
        }
      }
    }
    forall j | 0 <= j < |s'.orphans| ensures s'.orphans[j].slot in s'.use && s'.use[s'.orphans[j].slot] == Queued {
      assert s.orphans[j].slot in s.use;
    }
  }

  lemma ParkRows(s: State, t: nat, row: nat)
    requires TxnsOk(s) && RowsOk(s) && row in s.rows
    requires ParkedState(s, t, row).parking.value.slot !in s.use && (s.free != [] ==> s.free[|s.free| - 1] < |s.arena|)
    ensures RowsOk(ParkedState(s, t, row))
  {
    hide RowWrites, RowOps, Stacked, Base, Bottom, Linked;
    var s' := ParkedState(s, t, row);
    forall r: nat ensures RowOk(s', r) {
      assert RowOk(s, r);
      if r in s.hist { LinkedFrame(s.arena, s.use, s'.arena, s'.use, r, s.hist[r]); }
      ReadersCalm(s, s');
      RowKept(s, s', r);
    }
    forall r: nat ensures Saw(s', r) { assert Saw(s, r); }
  }

  lemma ParkViews(s: State, s': State)
    requires TxnsOk(s) && ViewsOk(s) && SameReaders(s, s') && s'.spec.writes == s.spec.writes
    ensures ViewsOk(s')
  {
    hide RowWrites, Expected, ViewOk, Calm, Quiet;
    ReadersCalm(s, s');
    forall x: nat ensures PinnedOk(s', x) {
      assert PinnedOk(s, x);
      if x in s.pinned { PinnedKept(s, s', x); }
    }
    forall k: nat ensures ScanOk(s', k) {
      assert ScanOk(s, k);
      if k in s.scans { ScanKept(s, s', k); }
    }
  }

  lemma ParkKeeps(s: State, t: nat, row: nat)
    requires Inv(s) && t in s.pinned && s.parking.None? && NoScans(s, t) && MayWrite(s, t, row) && |s.arena| < NO_UNDO
    ensures Inv(ParkedState(s, t, row))
  {
    hide ViewsOk, RowsOk, RowWrites, RowOps, TxnOk, SlotOk, OrphansOk, Distinct;
    var s' := ParkedState(s, t, row);
    ParkSlots(s, t, row);
    ParkRows(s, t, row);
    ParkViews(s, s');
    ParkTxns(s, s');
    PassesKept(s, s');
  }

  lemma ParkTxns(s: State, s': State)
    requires TxnsOk(s) && SameReaders(s, s') && s'.spec.writes == s.spec.writes && s'.undo == s.undo && s'.owner == s.owner
    requires s'.nextRow == s.nextRow == s'.spec.nextRow
    requires s'.spec.latch.Some? ==> s'.spec.latch.value.0 in s'.spec.at
    ensures TxnsOk(s')
  {
    hide RowWrites, RowOps, LogOk;
    forall x | x in s'.active ensures TxnOk(s', x) { assert TxnOk(s, x); TxnKept(s, s', x); }
  }

  ghost function InstalledState(s: State, tuple: Tuple): State
    requires s.parking.Some?
  {
    var p := s.parking.value;
    var v := Version(RowMeta(p.txn, NO_XMAX, p.slot), tuple);
    var h := Hist(s, p.row);
    s.(rows := s.rows[p.row := v], hist := s.hist[p.row := [v] + h], owner := s.owner[p.row := p.txn],
       use := s.use[p.slot := Chain(p.row, if h == [] then 0 else |h| - 1)], parking := None,
       undo := s.undo[p.txn := LogOf(s, p.txn) + [Updated(p.row, LeafOf(s, p.row), p.slot)]],
       spec := Append(s.spec, p.txn, Write(p.row, Some(tuple))).(latch := None))
  }

  lemma InstallRow(s: State, tuple: Tuple)
    requires TxnsOk(s) && ParkingOk(s) && s.parking.Some? && RowOk(s, s.parking.value.row) && |s.arena| <= NO_UNDO
    ensures RowOk(InstalledState(s, tuple), s.parking.value.row)
  {
    hide RowWrites, RowOps, Base, Stacked, Bottom, Quiet;
    var p, s' := s.parking.value, InstalledState(s, tuple);
    var h, v := s.hist[p.row], s'.rows[p.row];
    Restack(s, p.txn, p.row);
    LoggedOps(s, s', p.txn, Updated(p.row, h[0], p.slot), Write(p.row, Some(tuple)), p.row);
    StackUpdate(h, v, p.txn, Ops(s, p.row), Vals(s, p.row), p.row);
    LinkedFrame(s.arena, s.use, s'.arena, s'.use, p.row, h);
    assert ([v] + h)[1..] == h;
    ReadersCalm(s, s');
    BaseKept(s, s', p.row, Bottom(h, Ops(s, p.row)));
  }

  lemma InstallRows(s: State, tuple: Tuple)
    requires TxnsOk(s) && RowsOk(s) && ParkingOk(s) && s.parking.Some? && |s.arena| <= NO_UNDO
    requires s.parking.value.row in s.hist && s.hist[s.parking.value.row] != []
    ensures RowsOk(InstalledState(s, tuple))
  {
    hide RowWrites, RowOps, Stacked, Base, Bottom, Linked, Ops, Vals, LogOk;
    var p, s' := s.parking.value, InstalledState(s, tuple);
    assert RowOk(s, p.row);
    InstallRow(s, tuple);
    forall r: nat ensures RowOk(s', r) {
      assert RowOk(s, r);
      if r != p.row {
        if r in s.hist { LinkedFrame(s.arena, s.use, s'.arena, s'.use, r, s.hist[r]); }
        LoggedOther(s, s', p.txn, Updated(p.row, s.rows[p.row], p.slot), Write(p.row, Some(tuple)), r);
      }
    }
    LoggedSaw(s, s', p.txn, Updated(p.row, s.rows[p.row], p.slot), Write(p.row, Some(tuple)));
  }

  lemma InstallSlots(s: State, tuple: Tuple)
    requires TxnsOk(s) && SlotsOk(s) && ParkingOk(s) && s.parking.Some?
    requires s.parking.value.row in s.hist && s.hist[s.parking.value.row] != []
    ensures SlotsOk(InstalledState(s, tuple))
  {
    hide RowWrites, RowOps, TxnOk, MayWrite;
    var p, s' := s.parking.value, InstalledState(s, tuple);
    forall i: nat ensures SlotOk(s', i) {
      assert SlotOk(s, i);
    }
  }

  lemma InstallKeeps(s: State, tuple: Tuple)
    requires Inv(s) && s.parking.Some? && s.parking.value.row in s.hist && s.hist[s.parking.value.row] != []
    ensures Inv(InstalledState(s, tuple))
  {
    hide ViewsOk, RowsOk, RowWrites, RowOps, SlotOk, OrphansOk, Distinct;
    var p, s' := s.parking.value, InstalledState(s, tuple);
    LoggedTxns(s, s', p.txn, Updated(p.row, s.rows[p.row], p.slot), Write(p.row, Some(tuple)));
    LoggedViews(s, s', p.txn, Updated(p.row, s.rows[p.row], p.slot), Write(p.row, Some(tuple)));
    InstallRows(s, tuple);
    InstallSlots(s, tuple);
    PassesKept(s, s');
  }

  // Taking a write back --------------------------------------------------------------------------

  /** `s'` is `s` with the last write of `t`, on row `row`, taken off its log. */
  ghost predicate Unlogged(s: State, s': State, t: nat, row: nat) {
    && t in s.undo && t in s.spec.writes && s.undo[t] != [] && s.spec.writes[t] != []
    && var ops, ws := s.undo[t][..|s.undo[t]| - 1], s.spec.writes[t][..|s.spec.writes[t]| - 1];
    && row == s.undo[t][|s.undo[t]| - 1].row
    && s'.undo == s.undo[t := ops]
    && s'.spec.writes == s.spec.writes[t := ws]
    && s'.owner == (if RowOps(ops, row) == [] then s.owner - {row} else s.owner)
    && SameReaders(s, s')
  }

  lemma UnloggedTxns(s: State, s': State, t: nat, row: nat)
    requires TxnsOk(s) && Unlogged(s, s', t, row)
    requires s'.nextRow == s'.spec.nextRow && s'.spec.latch.None?
    ensures TxnsOk(s')
  {
    hide LogsOk, RowOps;
    UnloggedLogs(s, s', t, row);
  }

  lemma UnloggedLogs(s: State, s': State, t: nat, row: nat)
    requires Aligned(s) && LogsOk(s) && Unlogged(s, s', t, row)
    ensures LogsOk(s')
  {
    hide RowWrites, WellFormed;
    assert TxnOk(s, t);
    assert RowOps(s.undo[t], row) != [];
    forall x | x in s'.active ensures TxnOk(s', x) {
      assert TxnOk(s, x);
      forall r: nat | RowOps(s'.undo[x], r) != [] ensures r in s'.owner && s'.owner[r] == x {
        assert RowOps(s.undo[x], r) != [];
      }
    }
  }

  lemma UnloggedOps(s: State, s': State, t: nat, row: nat, r: nat)
    requires TxnsOk(s) && RowOk(s, r) && Unlogged(s, s', t, row)
    ensures r != row ==> Ops(s', r) == Ops(s, r) && Vals(s', r) == Vals(s, r)
    ensures r == row ==>
              && row in s.owner && s.owner[row] == t
              && Ops(s, r) == Ops(s', r) + [s.undo[t][|s.undo[t]| - 1]]
              && Vals(s, r) == Vals(s', r) + [s.spec.writes[t][|s.spec.writes[t]| - 1].value]
  {
    hide Stacked, Base, Bottom, Linked;
    assert TxnOk(s, t);
    var n := |s.undo[t]| - 1;
    LogRows(s.undo[t][..n], s.spec.writes[t][..n], r);
    if r == row { assert RowOps(s.undo[t], r) != []; }
  }

  lemma {:induction false} UnloggedOther(s: State, s': State, t: nat, row: nat, r: nat)
    requires TxnsOk(s) && RowOk(s, r) && Unlogged(s, s', t, row) && r != row
    requires r in s.rows <==> r in s'.rows
    requires r in s.hist <==> r in s'.hist
    requires r in s.rows && r in s.hist ==> s'.rows[r] == s.rows[r] && s'.hist[r] == s.hist[r]
    requires r in s.hist ==> Linked(s'.arena, s'.use, r, s.hist[r])
    ensures RowOk(s', r)
  {
    hide RowWrites, RowOps, Stacked, Base, Bottom, Linked, Quiet, Ops, Vals;
    UnloggedOps(s, s', t, row, r);
    ReadersCalm(s, s');
    RowKept(s, s', r);
  }

  lemma UnloggedViews(s: State, s': State, t: nat, row: nat)
    requires TxnsOk(s) && ViewsOk(s) && Unlogged(s, s', t, row) && NoScans(s, t)
    ensures ViewsOk(s')
  {
    hide RowWrites, Expected, ViewOk, Calm, Quiet;
    ReadersCalm(s, s');
    forall x: nat ensures PinnedOk(s', x) {
      assert PinnedOk(s, x);
      if x in s.pinned { PinnedKept(s, s', x); }
    }
    forall k: nat ensures ScanOk(s', k) {
      assert ScanOk(s, k);
      if k in s.scans { ScanKept(s, s', k); }
    }
  }

  lemma UnloggedSaw(s: State, s': State, t: nat, row: nat)
    requires RowsOk(s) && Unlogged(s, s', t, row)
    ensures forall r: nat {:trigger Saw(s', r)} :: Saw(s', r)
  {
    hide RowOk;
    forall r: nat ensures Saw(s', r) { assert Saw(s, r); }
  }

  /** The state after the newest logged write of `t` is undone. */
  ghost function BackState(s: State, t: nat): State {
    var log := LogOf(s, t);
    if log == [] then s
    else
      var ops, op := log[..|log| - 1], log[|log| - 1];
      var row := op.row;
      var u := s.(undo := s.undo[t := ops], owner := if RowOps(ops, row) == [] then s.owner - {row} else s.owner,
                  spec := StepsBack(s.spec, t));
      match op
      case Inserted(_) => u.(rows := s.rows - {row}, hist := s.hist - {row})
      case Updated(_, was, slot) =>
        u.(rows := s.rows[row := was], hist := s.hist[row := Older(Hist(s, row))],
           orphans := s.orphans + [Orphan(slot, t)], use := s.use[slot := Queued])
      case Deleted(_, was) =>
        var v := LeafOf(s, row).(meta := LeafOf(s, row).meta.(xmax := was.meta.xmax));
        u.(rows := s.rows[row := v], hist := s.hist[row := [v] + Older(Hist(s, row))])
  }

  /** A logged write has its row at hand, and is the newest on it. */
  lemma BackTop(s: State, t: nat)
    requires TxnsOk(s) && RowsOk(s) && t in s.active && s.undo[t] != []
    ensures s.spec.writes[t] != []
    ensures var op := s.undo[t][|s.undo[t]| - 1];
            && op.row in s.rows && op.row in s.hist && s.hist[op.row] != [] && s.hist[op.row][0] == s.rows[op.row]
            && op.row in s.owner && s.owner[op.row] == t
            && (op.Updated? ==> |s.hist[op.row]| >= 2 && s.hist[op.row][1] == op.was && s.rows[op.row].meta.undo == op.slot)
            && (op.Inserted? ==> |s.hist[op.row]| == 1)
            && (op.Deleted? ==> op.was.meta.xmax == NO_XMAX)
  {
    var n := |s.undo[t]| - 1;
    var op := s.undo[t][n];
    assert TxnOk(s, t);
    assert RowOk(s, op.row);
    assert RowOps(s.undo[t], op.row) != [];
    assert Ops(s, op.row)[|Ops(s, op.row)| - 1] == op;
    WriterOnTop(Hist(s, op.row), t, Ops(s, op.row), Vals(s, op.row));
  }

  /** Taking the top write off a stack. */
  lemma {:induction false} Unstack(h: seq<Version>, t: nat, ops: seq<UndoOp>, vals: seq<Option<Tuple>>, op: UndoOp, val: Option<Tuple>)
    requires Stacked(h, t, ops + [op], vals + [val])
    ensures h != [] && |ops| == |vals|
    ensures op.Inserted? ==> ops == [] && Bottom(h, ops + [op]) == []
    ensures op.Updated? ==> |h| >= 2 && Stacked(h[1..], t, ops, vals) && Bottom(h, ops + [op]) == Bottom(h[1..], ops)
    ensures op.Deleted? ==>
              var h' := [Live(h[0])] + h[1..];
              Stacked(h', t, ops, vals) && Bottom(h, ops + [op]) == Bottom(h', ops)
  {
    var n := |ops|;
    assert |vals| == n;
    assert (ops + [op])[..n] == ops && (vals + [val])[..n] == vals;
  }

  /** The history left behind is still stored. */
  lemma {:induction false} BackLinked(s: State, t: nat, row: nat)
    requires TxnsOk(s) && RowsOk(s) && t in s.active && s.undo[t] != [] && row == s.undo[t][|s.undo[t]| - 1].row
    requires row in s.rows && row in s.hist && s.hist[row] != []
    ensures var s' := BackState(s, t);
            row in s'.hist ==> Linked(s'.arena, s'.use, row, s'.hist[row])
  {
    hide RowWrites, Base, Stacked, Bottom, LogOk, Saw, RowOps;
    var s', h := BackState(s, t), s.hist[row];
    BackTop(s, t);
    assert RowOk(s, row);
    match s.undo[t][|s.undo[t]| - 1]
    case Inserted(_) =>
    case Updated(_, _, slot) => LinkedFrame(s.arena, s.use, s'.arena, s'.use, row, h[1..]);
    case Deleted(_, _) => LinkedHead(s.arena, s.use, row, h, s'.rows[row]);
  }

  /** The undone row: gone, its older version, or its newest version without the deletion. */
  lemma BackShape(s: State, t: nat, row: nat)
    requires TxnsOk(s) && RowsOk(s) && t in s.active && s.undo[t] != [] && row == s.undo[t][|s.undo[t]| - 1].row
    requires row in s.rows && row in s.hist && s.hist[row] != []
    ensures var s', op := BackState(s, t), s.undo[t][|s.undo[t]| - 1];
            && Unlogged(s, s', t, row) && s'.nextRow == s.nextRow
            && (row in s'.rows <==> row in s'.hist)
            && (row in s'.hist ==> s'.hist[row] != [] && s'.hist[row][0] == s'.rows[row])
            && Hist(s', row) == UndoneHist(s.hist[row], op)
  {
    hide RowWrites, RowOps, Stacked, Base, Bottom, LogOk, Saw, Linked;
    BackTop(s, t);
  }

  ghost function UndoneHist(h: seq<Version>, op: UndoOp): seq<Version>
    requires h != []
  {
    match op
    case Inserted(_) => []
    case Updated(_, _, _) => h[1..]
    case Deleted(_, _) => [Live(h[0])] + h[1..]
  }

  /** Undoing takes the top of the row's stack off and leaves what lies below it. */
  lemma BackStack(s: State, t: nat, row: nat)
    requires TxnsOk(s) && RowsOk(s) && t in s.active && s.undo[t] != [] && row == s.undo[t][|s.undo[t]| - 1].row
    requires row in s.rows && row in s.hist && s.hist[row] != []
    ensures var s' := BackState(s, t);
            && Stacked(Hist(s', row), t, Ops(s', row), Vals(s', row))
            && Bottom(Hist(s', row), Ops(s', row)) == Bottom(s.hist[row], Ops(s, row))
  {
    hide BackState, TxnsOk, RowsOk, RowWrites, RowOps, Base, Bottom, Quiet, LogOk, Saw, Linked, Unlogged, Ops, Vals;
    var s' := BackState(s, t);
    RowIsOk(s, row);
    BackShape(s, t, row);
    UnloggedOps(s, s', t, row, row);
    UnloggedWrite(s, s', t, row);
    var op := s.undo[t][|s.undo[t]| - 1];
    Unstack(s.hist[row], t, Ops(s', row), Vals(s', row), op, s.spec.writes[t][|s.spec.writes[t]| - 1].value);
    NothingBelow();
    NothingStackedOn(t);
  }

  lemma UnloggedWrite(s: State, s': State, t: nat, row: nat)
    requires Unlogged(s, s', t, row)
    ensures t in s.spec.writes && s.spec.writes[t] != [] && t in s.undo && s.undo[t] != []
  {
  }

  lemma RowIsOk(s: State, row: nat)
    requires RowsOk(s)
    ensures RowOk(s, row)
  {
  }

  lemma NothingStackedOn(t: nat)
    ensures Stacked([], t, [], [])
  {
  }

  /** Who owns the row afterwards: still `t` if it wrote the row before, and nobody otherwise. */
  lemma BackOwner(s: State, s': State, t: nat, row: nat)
    requires TxnsOk(s) && RowOk(s, row) && Unlogged(s, s', t, row)
    ensures if row in s'.owner then s'.owner[row] == t && t in s'.active && Ops(s', row) != [] else Ops(s', row) == []
  {
    hide RowWrites, Stacked, Base, Bottom, LogOk, Saw, Linked;
    UnloggedOps(s, s', t, row, row);
    assert TxnOk(s, t);
  }

  lemma BackRow(s: State, t: nat, row: nat)
    requires TxnsOk(s) && RowsOk(s) && t in s.active && s.undo[t] != [] && row == s.undo[t][|s.undo[t]| - 1].row
    requires row in s.rows && row in s.hist && s.hist[row] != []
    ensures RowOk(BackState(s, t), row)
  {
    hide BackState, TxnsOk, RowsOk, RowWrites, RowOps, Base, Bottom, Quiet, LogOk, Saw, Linked, Stacked, Ops, Vals;
    var s' := BackState(s, t);
    RowIsOk(s, row);
    BackShape(s, t, row);
    BackStack(s, t, row);
    BackOwner(s, s', t, row);
    ReadersCalm(s, s');
    BaseKept(s, s', row, Bottom(s.hist[row], Ops(s, row)));
    BackLinked(s, t, row);
    if row !in s'.owner { NoOps(Hist(s', row), t, Owner(s', row), Vals(s', row)); }
  }

  /** With nothing logged on a row, whoever is named as its writer makes no difference. */
  lemma NoOps(h: seq<Version>, t: nat, u: nat, vals: seq<Option<Tuple>>)
    requires Stacked(h, t, [], vals)
    ensures Stacked(h, u, [], vals)
  {
  }

  lemma NothingBelow()
    ensures Bottom([], []) == []
  {
  }

  lemma BackRows(s: State, t: nat, row: nat)
    requires TxnsOk(s) && RowsOk(s) && t in s.active && s.undo[t] != [] && row == s.undo[t][|s.undo[t]| - 1].row
    requires row in s.rows && row in s.hist && s.hist[row] != []
    ensures RowsOk(BackState(s, t))
  {
    hide RowWrites, RowOps, Base, Bottom, Stacked, LogOk, Linked, Ops, Vals;
    var s' := BackState(s, t);
    BackTop(s, t);
    BackRow(s, t, row);
    assert Unlogged(s, s', t, row);
    assert RowOk(s, row);
    var op := s.undo[t][|s.undo[t]| - 1];
    if op.Updated? { HeadSlot(s, row); }
    forall r: nat ensures RowOk(s', r) {
      assert RowOk(s, r);
      if r != row {
        if r in s.hist { LinkedFrame(s.arena, s.use, s'.arena, s'.use, r, s.hist[r]); }
        UnloggedOther(s, s', t, row, r);
      }
    }
    UnloggedSaw(s, s', t, row);
  }

  lemma HeadSlot(s: State, row: nat)
    requires RowOk(s, row) && row in s.hist && |s.hist[row]| >= 2
    ensures var slot := s.hist[row][0].meta.undo;
            slot < |s.arena| && s.arena[slot].Some? && slot in s.use && s.use[slot] == Chain(row, |s.hist[row]| - 2)
  {
  }

  lemma BackSlots(s: State, t: nat, row: nat)
    requires TxnsOk(s) && RowsOk(s) && SlotsOk(s) && t in s.active && s.undo[t] != [] && row == s.undo[t][|s.undo[t]| - 1].row
    requires row in s.rows && row in s.hist && s.hist[row] != []
    ensures SlotsOk(BackState(s, t))
  {
    hide RowWrites, RowOps, Base, Bottom, Stacked, LogOk, Linked, Ops, Vals, Saw, TxnOk;
    var s', op, h := BackState(s, t), s.undo[t][|s.undo[t]| - 1], s.hist[row];
    BackTop(s, t);
    assert RowOk(s, row);
    if op.Updated? { HeadSlot(s, row); }
    forall i: nat ensures SlotOk(s', i) {
      assert SlotOk(s, i);
      if i in s'.use { BackHeld(s, t, row, i); }
    }
  }

  lemma BackHeld(s: State, t: nat, row: nat, i: nat)
    requires t in s.undo && t in s.spec.writes && s.undo[t] != [] && row == s.undo[t][|s.undo[t]| - 1].row
    requires row in s.rows && row in s.hist && s.hist[row] != [] && s.hist[row][0] == s.rows[row]
    requires var op, h := s.undo[t][|s.undo[t]| - 1], s.hist[row];
             && (op.Inserted? ==> |h| == 1)
             && (op.Updated? ==> |h| >= 2 && h[0].meta.undo == op.slot && op.slot in s.use && s.use[op.slot] == Chain(row, |h| - 2))
    requires i in BackState(s, t).use && SlotOk(s, i)
    ensures HeldBy(BackState(s, t), i, BackState(s, t).use[i])
  {
    var s', op, h := BackState(s, t), s.undo[t][|s.undo[t]| - 1], s.hist[row];
    if op.Updated? && i == op.slot {
      assert s'.orphans[|s.orphans|].slot == i;
    } else if s.use[i].Queued? {
      var j :| 0 <= j < |s.orphans| && s.orphans[j].slot == i;
      assert s'.orphans[j].slot == i;
    }
  }

  lemma BackKeeps(s: State, t: nat)
    requires Inv(s) && t in s.active && s.undo[t] != [] && NoScans(s, t) && s.parking.None?
    requires var op := s.undo[t][|s.undo[t]| - 1]; op.row in s.rows && op.row in s.hist && s.hist[op.row] != []
    ensures Inv(BackState(s, t))
  {
    hide RowWrites, RowOps, ViewsOk, RowsOk, SlotsOk, TxnOk;
    var row, s' := s.undo[t][|s.undo[t]| - 1].row, BackState(s, t);
    BackTop(s, t);
    assert Unlogged(s, s', t, row);
    UnloggedTxns(s, s', t, row);
    UnloggedViews(s, s', t, row);
    BackRows(s, t, row);
    BackSlots(s, t, row);
    PassesKept(s, s');
  }
}
