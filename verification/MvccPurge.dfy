/** Purging changes what nobody reads, and gives back every slot exactly once. */
module MvccPurge {
  import opened Bytes
  import opened VersionChain
  import opened SnapshotSpec
  import opened MvccInvariant
  import opened MvccHistory
  import opened MvccSteps
  import opened MvccReads
  import opened MvccWrites

  ghost function UseWithout(use: map<nat, Use>, row: nat): map<nat, Use> {
    map i | i in use && !(use[i].Chain? && use[i].row == row) :: use[i]
  }

  /** `s` with the slots of a row's history given back. */
  ghost function Reclaimed(s: State, row: nat): State {
    s.(arena := Freed(s.arena, Hist(s, row)), free := s.free + Slots(Hist(s, row)), use := UseWithout(s.use, row))
  }

  ghost function RemovedState(s: State, row: nat): State {
    Reclaimed(s, row).(rows := s.rows - {row}, hist := s.hist - {row})
  }

  function Unchain(v: Version): Version { v.(meta := v.meta.(undo := NO_UNDO)) }

  ghost function UnchainedState(s: State, row: nat): State {
    var v := Unchain(LeafOf(s, row));
    Reclaimed(s, row).(rows := s.rows[row := v], hist := s.hist[row := [v]])
  }

  /** The row's slots are exactly those of its history. */
  lemma ChainSlots(s: State, row: nat, i: nat)
    requires SlotsOk(s) && RowOk(s, row) && row in s.hist
    ensures InChain(s.use, i, row, |s.hist[row]|) ==> i in Slots(s.hist[row])
    ensures i in s.use && s.use[i].Chain? && s.use[i].row == row ==> i in Slots(s.hist[row])
    ensures i in Slots(s.hist[row]) ==> i < |s.arena| && s.arena[i].Some? && i in s.use && s.use[i].Chain? && s.use[i].row == row
  {
    hide Stacked, Base, Bottom, Linked, Freed, Slots;
    var h := s.hist[row];
    FreedAt(s.arena, s.use, row, h);
    assert SlotOk(s, i);
    if i in s.use && s.use[i].Chain? && s.use[i].row == row {
      var k := |h| - 2 - s.use[i].depth;
      assert Slots(h)[k] == h[k].meta.undo == i;
    }
  }

  /** Slots after the row is reclaimed; whether the row stays does not matter, as long as it no
      longer leads anywhere. */
  lemma ReclaimedSlots(s: State, s': State, row: nat)
    requires SlotsOk(s) && RowOk(s, row) && row in s.hist
    requires var c := Reclaimed(s, row); s'.arena == c.arena && s'.free == c.free && s'.use == c.use
    requires s'.orphans == s.orphans && s'.parking == s.parking
    requires forall r {:trigger s.hist[r]} :: r in s.hist && r != row ==> r in s'.hist && s'.hist[r] == s.hist[r]
    ensures SlotsOk(s')
  {
    hide Stacked, Base, Bottom, Linked, Freed, Slots, InChain;
    var h := s.hist[row];
    FreedAt(s.arena, s.use, row, h);
    forall i: nat ensures SlotOk(s', i) {
      ReclaimedSlot(s, s', row, i);
    }
    forall k | 0 <= k < |Slots(h)| ensures Slots(h)[k] !in s.free {
      assert Slots(h)[k] in Slots(h);
      ChainSlots(s, row, Slots(h)[k]);
      assert SlotOk(s, Slots(h)[k]);
    }
  }

  lemma ReclaimedSlot(s: State, s': State, row: nat, i: nat)
    requires SlotsOk(s) && RowOk(s, row) && row in s.hist
    requires var c := Reclaimed(s, row); s'.arena == c.arena && s'.free == c.free && s'.use == c.use
    requires s'.orphans == s.orphans && s'.parking == s.parking
    requires forall r {:trigger s.hist[r]} :: r in s.hist && r != row ==> r in s'.hist && s'.hist[r] == s.hist[r]
    ensures SlotOk(s', i)
  {
    hide Stacked, Base, Bottom, Linked, Freed, Slots, InChain;
    FreedAt(s.arena, s.use, row, s.hist[row]);
    ChainSlots(s, row, i);
    assert SlotOk(s, i);
    assert i in s'.free <==> i in s.free || i in Slots(s.hist[row]);
  }

  lemma ReclaimedOther(s: State, s': State, row: nat, r: nat)
    requires TxnsOk(s) && SlotsOk(s) && RowOk(s, row) && row in s.hist && RowOk(s, r) && r != row
    requires var c := Reclaimed(s, row); s'.arena == c.arena && s'.free == c.free && s'.use == c.use
    requires SameReaders(s, s') && s'.owner == s.owner && s'.undo == s.undo && s'.spec.writes == s.spec.writes
    requires r in s.rows <==> r in s'.rows
    requires r in s.hist <==> r in s'.hist
    requires r in s.rows && r in s.hist ==> s'.rows[r] == s.rows[r] && s'.hist[r] == s.hist[r]
    ensures RowOk(s', r)
  {
    hide Stacked, Base, Bottom, Linked, Freed, Slots, InChain, Quiet, RowOps, RowWrites;
    if r in s.hist {
      FreedAt(s.arena, s.use, row, s.hist[row]);
      forall i | i in s.use && s.use[i].Chain? && s.use[i].row == r && i < |s.arena|
        ensures i in s'.use && s'.use[i] == s.use[i] && s'.arena[i] == s.arena[i]
      {
        ChainSlots(s, row, i);
      }
      LinkedFrame(s.arena, s.use, s'.arena, s'.use, r, s.hist[r]);
    }
    ReadersCalm(s, s');
    RowKept(s, s', r);
  }

  // The snapshot of a pass -----------------------------------------------------------------------

  lemma SnapshotKeeps(s: State)
    requires Inv(s)
    ensures Inv(s.(passes := s.passes + [SnapshotPass(s)]))
  {
    hide Stacked, Base, Bottom, Linked, Ops, Vals, SlotOk, TxnOk, ScanOk, PinnedOk, Settled;
    var s' := s.(passes := s.passes + [SnapshotPass(s)]);
    forall i, x: nat | 0 <= i < |s'.passes| && Settled(s'.passes[i], x) ensures SeenByAll(s', x) {
      if i == |s.passes| { SnapshotSettles(s, x); } else { assert Settled(s.passes[i], x); }
    }
    forall row | row in s.owner ensures s.owner[row] in s.active { assert RowOk(s, row); }
    RowsKept(s, s');
    forall r: nat ensures Saw(s', r) { assert Saw(s, r); }
    SlotsKept(s, s');
    ParkTxns(s, s');
    ParkViews(s, s');
  }

  // What may be purged ---------------------------------------------------------------------------

  /** Every table anyone still reads holds the commit of a stamp everyone sees. */
  lemma SettledBelow(s: State, x: nat, at: nat)
    requires TxnsOk(s) && ViewsOk(s) && SeenByAll(s, x) && x in s.order && LiveTime(s, at)
    ensures s.order[x] <= at
  {
    hide Expected, RowWrites, TxnOk;
    if t :| t in s.spec.at && s.spec.at[t] == at {
      assert PinnedOk(s, t);
      assert Sees(s.pinned[t], x);
    } else if k :| k in s.scanAt && s.scanAt[k] == at {
      assert ScanOk(s, k);
      assert Sees(s.scans[k].view, x);
    }
  }

  /** A deletion everyone sees leaves a row nobody reads. */
  lemma RemovableRow(s: State, row: nat)
    requires TxnsOk(s) && ViewsOk(s) && RowOk(s, row) && row in s.hist
    requires s.rows[row].meta.xmax != NO_XMAX && SeenByAll(s, s.rows[row].meta.xmax)
    ensures row !in s.owner && Base(s, row, [])
  {
    hide Linked, RowOps, RowWrites, LiveTime, Bottom, Stacked;
    var h, x := s.hist[row], s.rows[row].meta.xmax;
    if row in s.owner {
      assert TxnOk(s, s.owner[row]);
      WriterOnTop(h, s.owner[row], Ops(s, row), Vals(s, row));
    }
    HeadIs(s, row);
    Unowned(s, row);
    forall at: nat | at < |s.spec.history| && LiveTime(s, at)
      ensures Shown([], By(s.order, at)) == Get(s.spec.history[at], row) && s.spec.changed[row] <= at
    {
      SettledBelow(s, x, at);
      TopShown(h, By(s.order, at));
    }
  }

  lemma RemoveRows(s: State, row: nat)
    requires TxnsOk(s) && ViewsOk(s) && RowsOk(s) && SlotsOk(s) && row in s.hist && row in s.rows
    requires s.rows[row].meta.xmax != NO_XMAX && SeenByAll(s, s.rows[row].meta.xmax)
    ensures RowsOk(RemovedState(s, row))
  {
    hide Base, Bottom, Linked, Freed, Slots, RowOps, RowWrites, ViewsOk, SlotOk;
    var s' := RemovedState(s, row);
    assert RowOk(s, row);
    RemovableRow(s, row);
    ReadersCalm(s, s');
    BaseKept(s, s', row, []);
    NothingBelow();
    forall r: nat ensures RowOk(s', r) {
      assert RowOk(s, r);
      if r != row { ReclaimedOther(s, s', row, r); }
    }
    forall r: nat ensures Saw(s', r) { assert Saw(s, r); }
  }

  lemma RemoveKeeps(s: State, row: nat)
    requires Inv(s) && s.parking.None? && row in s.hist && row in s.rows
    requires s.rows[row].meta.xmax != NO_XMAX && SeenByAll(s, s.rows[row].meta.xmax)
    ensures Inv(RemovedState(s, row))
  {
    hide RowOk, Freed, Slots, SlotOk, TxnOk, ScanOk, SeenByAll;
    var s' := RemovedState(s, row);
    RemoveRows(s, row);
    assert RowOk(s, row);
    ReclaimedSlots(s, s', row);
    ParkViews(s, s');
    ParkTxns(s, s');
    PassesKept(s, s');
  }

  /** Below a version everyone sees there is nothing anyone reads. */
  lemma ChainUnread(s: State, row: nat)
    requires TxnsOk(s) && ViewsOk(s) && RowOk(s, row) && row in s.hist && SeenByAll(s, s.rows[row].meta.xmin)
    ensures var h, h' := s.hist[row], [Unchain(s.rows[row])];
            && Stacked(h', Owner(s, row), Ops(s, row), Vals(s, row))
            && Base(s, row, Bottom(h', Ops(s, row)))
  {
    hide Linked, RowOps, RowWrites, LiveTime;
    var h, h', ops := s.hist[row], [Unchain(s.rows[row])], Ops(s, row);
    HeadIs(s, row);
    if row in s.owner {
      assert TxnOk(s, s.owner[row]);
      WriterOnTop(h, s.owner[row], ops, Vals(s, row));
      assert ops[..0] == [] && [Live(h'[0])] + h'[1..] == [Live(h'[0])];
      assert Stacked(h', s.owner[row], ops, Vals(s, row));
      WriterOnTop(h', s.owner[row], ops, Vals(s, row));
    }
    var b, b' := Bottom(h, ops), Bottom(h', ops);
    assert ops == [] ==> b == h && b' == h';
    assert ops != [] ==> b == [Live(h[0])] + h[1..] && b' == [Live(h'[0])];
    forall at: nat | at < |s.spec.history| && LiveTime(s, at)
      ensures Shown(b', By(s.order, at)) == Shown(b, By(s.order, at))
    {
      SettledBelow(s, b[0].meta.xmin, at);
    }
  }

  lemma UnchainRows(s: State, row: nat)
    requires TxnsOk(s) && ViewsOk(s) && RowsOk(s) && SlotsOk(s) && row in s.hist && row in s.rows
    requires SeenByAll(s, s.rows[row].meta.xmin)
    ensures RowsOk(UnchainedState(s, row))
  {
    hide Base, Bottom, Stacked, Freed, Slots, RowOps, RowWrites, ViewsOk, SlotOk;
    var s' := UnchainedState(s, row);
    assert RowOk(s, row);
    ChainUnread(s, row);
    ReadersCalm(s, s');
    BaseKept(s, s', row, Bottom(s'.hist[row], Ops(s, row)));
    forall r: nat ensures RowOk(s', r) {
      assert RowOk(s, r);
      if r != row { ReclaimedOther(s, s', row, r); }
    }
    forall r: nat ensures Saw(s', r) { assert Saw(s, r); }
  }

  lemma UnchainKeeps(s: State, row: nat)
    requires Inv(s) && s.parking.None? && row in s.hist && row in s.rows
    requires SeenByAll(s, s.rows[row].meta.xmin)
    ensures Inv(UnchainedState(s, row))
  {
    hide RowOk, Freed, Slots, SlotOk, TxnOk, ScanOk, SeenByAll;
    var s' := UnchainedState(s, row);
    UnchainRows(s, row);
    assert RowOk(s, row);
    ReclaimedSlots(s, s', row);
    ParkViews(s, s');
    ParkTxns(s, s');
    PassesKept(s, s');
  }

  // Orphans --------------------------------------------------------------------------------------

  /** Orphan `j` of the queue is given back. */
  ghost function OrphanFreed(s: State, j: nat): State
    requires j < |s.orphans| && s.orphans[j].slot < |s.arena|
  {
    var slot := s.orphans[j].slot;
    s.(arena := s.arena[slot := None], free := s.free + [slot], use := s.use - {slot},
       orphans := s.orphans[..j] + s.orphans[j + 1..])
  }

  lemma OrphanSlots(s: State, j: nat)
    requires SlotsOk(s) && j < |s.orphans| && s.orphans[j].slot < |s.arena|
    ensures SlotsOk(OrphanFreed(s, j)) && s.arena[s.orphans[j].slot].Some?
  {
    var s', slot := OrphanFreed(s, j), s.orphans[j].slot;
    assert SlotOk(s, slot);
    forall i: nat ensures SlotOk(s', i) {
      assert SlotOk(s, i);
      if i in s'.use && s.use[i].Queued? {
        var k :| 0 <= k < |s.orphans| && s.orphans[k].slot == i;
        assert s'.orphans[if k < j then k else k - 1].slot == i;
      }
    }
  }

  lemma OrphanKeeps(s: State, j: nat)
    requires Inv(s) && j < |s.orphans| && s.orphans[j].slot < |s.arena|
    ensures Inv(OrphanFreed(s, j))
  {
    hide SlotOk, TxnOk, ScanOk, Stacked, Base, Bottom, Linked, RowOps, RowWrites;
    var s', slot := OrphanFreed(s, j), s.orphans[j].slot;
    OrphanSlots(s, j);
    assert slot in s.use && s.use[slot] == Queued;
    ReadersCalm(s, s');
    forall r: nat ensures RowOk(s', r) && Saw(s', r) {
      assert RowOk(s, r) && Saw(s, r);
      if r in s.hist { LinkedFrame(s.arena, s.use, s'.arena, s'.use, r, s.hist[r]); }
      RowKept(s, s', r);
    }
    ParkViews(s, s');
    ParkTxns(s, s');
    PassesKept(s, s');
  }
}
