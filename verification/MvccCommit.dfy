/** Committing turns a transaction's writes into the next committed table. */
module MvccCommit {
  import opened Bytes
  import opened VersionChain
  import opened SnapshotSpec
  import opened MvccInvariant
  import opened MvccHistory
  import opened MvccSteps

  ghost function OwnersWithout(owner: map<nat, nat>, t: nat): map<nat, nat> {
    map row | row in owner && owner[row] != t :: owner[row]
  }

  ghost function Committed(s: State, t: nat): State {
    s.(active := s.active - {t}, undo := s.undo - {t}, pinned := s.pinned - {t},
       order := s.order[t := |s.spec.history|], owner := OwnersWithout(s.owner, t),
       spec := Commits(s.spec, t))
  }

  lemma CommitTimes(s: State, t: nat, at: nat)
    requires TxnsOk(s) && ViewsOk(s) && t in s.pinned
    requires LiveTime(Committed(s, t), at) && at < |s.spec.history|
    ensures LiveTime(s, at)
  {
    hide Apply, Mark, RowWrites, Expected, ViewOk, TxnOk;
    var s' := Committed(s, t);
    if k :| k in s'.scanAt && s'.scanAt[k] == at { assert ScanOk(s, k); }
  }

  lemma ByKept(order: map<nat, nat>, t: nat, commit: nat, at: nat)
    requires t !in order && at < commit
    ensures By(order[t := commit], at) == By(order, at)
  {
  }

  /** The committed history of a row the transaction did not write. */
  lemma CommitOther(s: State, t: nat, row: nat, b: seq<Version>)
    requires TxnsOk(s) && ViewsOk(s) && t in s.pinned && t !in s.order
    requires Base(s, row, b) && !Wrote(s.spec.writes[t], row)
    ensures Base(Committed(s, t), row, b)
  {
    hide Apply, Mark, RowWrites, LastWrite, Expected, ViewOk, TxnOk, Shown, LiveTime, ScanOk, PinnedOk;
    var s', clock := Committed(s, t), Clock(s.spec);
    ApplyGet(s.spec.history[clock], s.spec.changed, s.spec.writes[t], clock + 1, row);
    assert LiveTime(s, clock) by { NowIsLive(s); }
    forall at: nat | at < |s'.spec.history| && LiveTime(s', at)
      ensures Shown(b, By(s'.order, at)) == Get(s'.spec.history[at], row)
      ensures at <= clock ==> LiveTime(s, at)
    {
      if at <= clock {
        CommitTimes(s, t, at);
        ByKept(s.order, t, clock + 1, at);
      } else {
        CommittedAgree(b, s.order, By(s'.order, at), By(s.order, clock));
      }
    }
  }

  lemma NowIsLive(s: State)
    requires s.spec.history != []
    ensures LiveTime(s, Clock(s.spec))
  {
  }

  /** The history of a row the transaction wrote is committed with it. */
  lemma {:induction false} CommitOwn(s: State, t: nat, row: nat, h: seq<Version>, ops: seq<UndoOp>, vals: seq<Option<Tuple>>)
    requires TxnsOk(s) && ViewsOk(s) && t in s.pinned && t !in s.order && t != NO_XMAX
    requires Stacked(h, t, ops, vals) && ops != [] && vals == RowWrites(s.spec.writes[t], row)
    requires Base(s, row, Bottom(h, ops))
    ensures Base(Committed(s, t), row, h)
  {
    hide Apply, Mark, RowWrites, Expected, ViewOk, TxnOk, Shown, LiveTime, ScanOk, PinnedOk, Stacked, Bottom;
    var s', clock := Committed(s, t), Clock(s.spec);
    var b := Bottom(h, ops);
    ApplyGet(s.spec.history[clock], s.spec.changed, s.spec.writes[t], clock + 1, row);
    WriterOnTop(h, t, ops, vals);
    assert Stamped(b, s'.order);
    BottomIsBelow(h, t, ops, vals, s'.order);
    forall at: nat | at < |s'.spec.history| && LiveTime(s', at)
      ensures Shown(h, By(s'.order, at)) == Get(s'.spec.history[at], row) {
      if at <= clock {
        CommitTimes(s, t, at);
        ByKept(s.order, t, clock + 1, at);
        UnseenWrites(h, t, ops, vals, By(s'.order, at));
      } else {
        TopShown(h, By(s'.order, at));
      }
    }
  }

  lemma CommitRow(s: State, t: nat, row: nat)
    requires TxnsOk(s) && ViewsOk(s) && t in s.pinned && RowOk(s, row)
    ensures RowOk(Committed(s, t), row)
  {
    hide Apply, RowWrites, Expected, ViewOk, Shown, LiveTime, ScanOk, PinnedOk, Stacked, Base, Linked, RowOps;
    var s' := Committed(s, t);
    assert TxnOk(s, t);
    ApplyGet(s.spec.history[Clock(s.spec)], s.spec.changed, s.spec.writes[t], Clock(s.spec) + 1, row);
    if row in s.owner && s.owner[row] == t {
      WriterOnTop(Hist(s, row), t, Ops(s, row), Vals(s, row));
      CommitOwn(s, t, row, Hist(s, row), Ops(s, row), Vals(s, row));
      NothingStacked(Hist(s, row), 0);
    } else {
      LogRows(s.undo[t], s.spec.writes[t], row);
      CommitOther(s, t, row, Bottom(Hist(s, row), Ops(s, row)));
      assert Ops(s', row) == Ops(s, row) && Vals(s', row) == Vals(s, row);
    }
  }

  lemma {:induction false} NothingStacked(h: seq<Version>, t: nat)
    ensures Stacked(h, t, [], []) && Bottom(h, []) == h
  {
  }

  lemma CommitTxns(s: State, t: nat)
    requires TxnsOk(s) && ViewsOk(s) && NoScans(s, t) && t in s.pinned && Idle(s.spec, t)
    ensures TxnsOk(Committed(s, t))
  {
    hide LogsOk, Apply, ViewOk, Expected, Mark;
    var s' := Committed(s, t);
    CommitLogs(s, t);
    assert WellFormed(s'.spec) by {
      forall row | row in s'.spec.changed ensures s'.spec.changed[row] < |s'.spec.history| {
        MarkBound(s.spec.changed, s.spec.writes[t], |s.spec.history|, row);
      }
      forall k | k in s.spec.cursors ensures s.spec.cursors[k].txn in s'.spec.at { assert ScanOk(s, k); }
    }
    TxnBelow(s, t);
  }

  lemma CommitLogs(s: State, t: nat)
    requires TxnsOk(s) && t in s.pinned
    ensures LogsOk(Committed(s, t))
  {
    hide RowWrites, LogOk, Apply, Mark, WellFormed;
    var s' := Committed(s, t);
    forall x | x in s'.active ensures TxnOk(s', x) { assert TxnOk(s, x); }
  }

  lemma CommitView(s: State, t: nat, v: ReadView, own: nat, at: nat)
    requires TxnsOk(s) && t in s.pinned && ViewOk(s, v, own, at) && own != t
    ensures ViewOk(Committed(s, t), v, own, at)
  {
    hide Apply, Mark, RowWrites;
    assert TxnOk(s, t);
    assert !Sees(v, t);
  }

  lemma CommitScan(s: State, t: nat, k: nat)
    requires TxnsOk(s) && t in s.pinned && ScanOk(s, k) && k in s.scans && s.scans[k].txn != t
    ensures ScanOk(Committed(s, t), k)
  {
    hide Apply, Mark, RowWrites, ViewOk, LastWrite;
    var s', c := Committed(s, t), s.scans[k];
    CommitView(s, t, c.view, c.txn, s.scanAt[k]);
    assert s.scanAt[k] < |s.spec.history| by { ViewTime(s, c.view, c.txn, s.scanAt[k]); }
    forall row: nat
      ensures Get(s'.spec.cursors[k].content, row)
              == if row < c.end then Expected(s'.spec, c.txn, s.scanAt[k], row) else None
    {
      assert Get(s.spec.cursors[k].content, row) == if row < c.end then Expected(s.spec, c.txn, s.scanAt[k], row) else None;
    }
  }

  lemma ViewTime(s: State, v: ReadView, own: nat, at: nat)
    requires ViewOk(s, v, own, at)
    ensures at < |s.spec.history|
  {
  }

  lemma CommitViews(s: State, t: nat)
    requires TxnsOk(s) && ViewsOk(s) && NoScans(s, t) && t in s.pinned
    ensures ViewsOk(Committed(s, t))
  {
    hide Apply, Mark, RowWrites, ViewOk, Expected, TxnOk;
    var s' := Committed(s, t);
    forall x: nat ensures PinnedOk(s', x) {
      assert PinnedOk(s, x);
      if x in s'.pinned { CommitView(s, t, s.pinned[x], x, s.spec.at[x]); }
    }
    forall k: nat ensures ScanOk(s', k) {
      assert ScanOk(s, k);
      if k in s.scans { CommitScan(s, t, k); }
    }
  }

  lemma CommitRows(s: State, t: nat)
    requires TxnsOk(s) && ViewsOk(s) && RowsOk(s) && NoScans(s, t) && t in s.pinned
    ensures RowsOk(Committed(s, t))
  {
    hide Apply, RowWrites, ViewOk, Expected, ViewsOk, RowOk;
    var s' := Committed(s, t);
    forall row: nat ensures RowOk(s', row) { assert RowOk(s, row); CommitRow(s, t, row); }
    forall row: nat ensures Saw(s', row) {
      assert Saw(s, row);
      if row in s'.owner { UntouchedChange(s, t, row); }
    }
  }

  /** A row somebody else has written keeps its last commit number. */
  lemma UntouchedChange(s: State, t: nat, row: nat)
    requires TxnsOk(s) && t in s.pinned && row in s.owner && s.owner[row] != t
    ensures row in Committed(s, t).spec.changed <==> row in s.spec.changed
    ensures row in s.spec.changed ==> Committed(s, t).spec.changed[row] == s.spec.changed[row]
  {
    hide Apply, RowWrites;
    assert TxnOk(s, t);
    LogRows(s.undo[t], s.spec.writes[t], row);
    ApplyGet(s.spec.history[Clock(s.spec)], s.spec.changed, s.spec.writes[t], |s.spec.history|, row);
  }

  lemma CommitParking(s: State, t: nat)
    requires TxnsOk(s) && RowsOk(s) && ParkingOk(s) && t in s.pinned && Idle(s.spec, t)
    ensures ParkingOk(Committed(s, t))
  {
    hide Apply, Mark, RowWrites, Stacked, Base, Bottom;
    if s.parking.Some? {
      var row := s.parking.value.row;
      assert TxnOk(s, t);
      LogRows(s.undo[t], s.spec.writes[t], row);
      ApplyGet(s.spec.history[Clock(s.spec)], s.spec.changed, s.spec.writes[t], |s.spec.history|, row);
    }
  }

  lemma CommitKeeps(s: State, t: nat)
    requires Inv(s) && NoScans(s, t) && t in s.pinned && Idle(s.spec, t)
    ensures Inv(Committed(s, t))
  {
    hide RowsOk, ViewsOk, TxnOk, ParkingOk, Apply, Mark;
    CommitTxns(s, t);
    CommitViews(s, t);
    CommitRows(s, t);
    CommitParking(s, t);
    PassesKept(s, Committed(s, t));
    SlotsKept(s, Committed(s, t));
  }
}
