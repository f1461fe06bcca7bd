/** Each step of the versioned row store keeps its invariant: transactions and views. */
module MvccSteps {
  import opened Bytes
  import opened VersionChain
  import opened SnapshotSpec
  import opened MvccInvariant
  import opened MvccHistory

  lemma {:induction false} RowOpsAppend(ops: seq<UndoOp>, op: UndoOp, row: nat)
    ensures RowOps(ops + [op], row) == RowOps(ops, row) + if op.row == row then [op] else []
  {
    assert (ops + [op])[..|ops|] == ops;
  }

  lemma {:induction false} RowWritesAppend(ws: seq<Write>, w: Write, row: nat)
    ensures RowWrites(ws + [w], row) == RowWrites(ws, row) + if w.row == row then [w.value] else []
  {
    assert (ws + [w])[..|ws|] == ws;
  }

  lemma {:induction false} LogRows(ops: seq<UndoOp>, ws: seq<Write>, row: nat)
    requires LogOk(ops, ws)
    ensures |RowOps(ops, row)| == |RowWrites(ws, row)|
    decreases |ops|
  {
    if ops != [] {
      LogRows(ops[..|ops| - 1], ws[..|ws| - 1], row);
    }
  }

  /** Nothing that decides what a row shows changes from `s` to `s'`. */
  ghost predicate SameRow(s: State, s': State, row: nat) {
    && (row in s.rows <==> row in s'.rows) && (row in s.rows ==> s.rows[row] == s'.rows[row])
    && (row in s.hist <==> row in s'.hist) && (row in s.hist ==> s.hist[row] == s'.hist[row])
    && (row in s.owner <==> row in s'.owner) && (row in s.owner ==> s.owner[row] == s'.owner[row])
    && Ops(s', row) == Ops(s, row) && Vals(s', row) == Vals(s, row)
  }

  /** The committed tables and their readers: nobody reads a table nobody read before. */
  ghost predicate Quiet(s: State, s': State) {
    && s'.order == s.order && s'.spec.history == s.spec.history && s'.spec.changed == s.spec.changed
    && s.nextRow <= s'.nextRow
    && (forall at: nat {:trigger LiveTime(s', at)} :: LiveTime(s', at) ==> LiveTime(s, at))
  }

  lemma BaseKept(s: State, s': State, row: nat, b: seq<Version>)
    requires Base(s, row, b) && Quiet(s, s')
    ensures Base(s', row, b)
  {
  }

  lemma {:induction false} RowKept(s: State, s': State, row: nat)
    requires RowOk(s, row) && Quiet(s, s') && SameRow(s, s', row)
    requires row in s.hist ==> Linked(s'.arena, s'.use, row, s.hist[row])
    requires row in s.owner ==> s.owner[row] in s'.active
    ensures RowOk(s', row)
  {
    BaseKept(s, s', row, Bottom(Hist(s, row), Ops(s, row)));
  }

  /** Steps that leave rows, logs and slots alone. */
  lemma RowsKept(s: State, s': State)
    requires RowsOk(s) && Quiet(s, s')
    requires s'.rows == s.rows && s'.hist == s.hist && s'.owner == s.owner && s'.arena == s.arena && s'.use == s.use
    requires forall row {:trigger s.owner[row]} :: row in s.owner ==>
               var t := s.owner[row];
               && t in s'.active && t in s.undo && t in s'.undo && s'.undo[t] == s.undo[t]
               && t in s.spec.writes && t in s'.spec.writes && s'.spec.writes[t] == s.spec.writes[t]
    ensures forall row: nat {:trigger RowOk(s', row)} :: RowOk(s', row)
  {
    forall row: nat ensures RowOk(s', row) {
      assert RowOk(s, row);
      RowKept(s, s', row);
    }
  }

  lemma SlotsKept(s: State, s': State)
    requires SlotsOk(s)
    requires s'.hist == s.hist && s'.arena == s.arena && s'.use == s.use && s'.free == s.free
    requires s'.orphans == s.orphans && s'.parking == s.parking
    ensures SlotsOk(s')
  {
    forall i: nat ensures SlotOk(s', i) {
      assert SlotOk(s, i);
    }
  }

  /** A view taken now sees what is committed now. */
  lemma FreshIsOk(s: State, s': State, v: ReadView, t: nat)
    requires TxnsOk(s) && s'.order == s.order && s'.spec.history == s.spec.history
    requires t in s'.active && t !in s.order && s'.active <= s.active + {t} && s.active <= s'.active
    requires v.own == t && v.active == s.active - {t} && s.nextTxn <= v.horizon <= s'.nextTxn <= s.nextTxn + 1
    ensures ViewOk(s', v, t, Clock(s.spec))
  {
    forall x | x != t
      ensures x in s'.active ==> !Sees(v, x)
      ensures x in s'.order ==> (Sees(v, x) <==> s'.order[x] <= Clock(s.spec))
    {
      assert x in s.active ==> TxnOk(s, x);
    }
  }

  /** No commit, and no running transaction that was not running before, but for new ones. */
  ghost predicate Calm(s: State, s': State) {
    && s'.order == s.order && s'.spec.history == s.spec.history
    && s.nextTxn <= s'.nextTxn && s.nextRow <= s'.nextRow && s.nextScan <= s'.nextScan
    && (forall x {:trigger x in s'.active} :: x in s'.active ==> x in s.active || x >= s.nextTxn)
  }

  lemma ViewKept(s: State, s': State, v: ReadView, own: nat, at: nat)
    requires ViewOk(s, v, own, at) && Calm(s, s') && own in s'.active
    ensures ViewOk(s', v, own, at)
  {
  }

  lemma PinnedKept(s: State, s': State, t: nat)
    requires PinnedOk(s, t) && Calm(s, s') && t in s.pinned
    requires t in s'.active && t in s'.pinned && s'.pinned[t] == s.pinned[t]
    requires t in s.spec.at && t in s'.spec.at && s'.spec.at[t] == s.spec.at[t]
    ensures PinnedOk(s', t)
  {
    ViewKept(s, s', s.pinned[t], t, s.spec.at[t]);
  }

  /** The scan is still open, and its transaction has not changed a row the scan reads. */
  ghost predicate SameScan(s: State, s': State, k: nat) {
    && k in s.scans && k in s'.scans && s'.scans[k] == s.scans[k]
    && k in s.scanAt && k in s'.scanAt && s'.scanAt[k] == s.scanAt[k]
    && k in s.spec.cursors && k in s'.spec.cursors && s'.spec.cursors[k] == s.spec.cursors[k]
    && s.scans[k].txn in s'.active && s.scans[k].txn in s'.spec.at
    && s.scans[k].txn in s.spec.writes && s.scans[k].txn in s'.spec.writes
    && (forall row: nat {:trigger RowWrites(s'.spec.writes[s.scans[k].txn], row)} :: row < s.scans[k].end ==>
          RowWrites(s'.spec.writes[s.scans[k].txn], row) == RowWrites(s.spec.writes[s.scans[k].txn], row))
  }

  lemma ScanKept(s: State, s': State, k: nat)
    requires ScanOk(s, k) && Calm(s, s') && SameScan(s, s', k)
    ensures ScanOk(s', k)
  {
    hide RowWrites;
    var c := s.scans[k];
    ViewKept(s, s', c.view, c.txn, s.scanAt[k]);
    forall row: nat
      ensures Get(s'.spec.cursors[k].content, row)
              == if row < c.end then Expected(s'.spec, c.txn, s'.scanAt[k], row) else None
    {
      assert Get(s.spec.cursors[k].content, row) == if row < c.end then Expected(s.spec, c.txn, s.scanAt[k], row) else None;
    }
  }

  lemma TxnKept(s: State, s': State, t: nat)
    requires TxnOk(s, t) && s'.order == s.order && s.nextTxn <= s'.nextTxn && s'.owner == s.owner
    requires t in s'.undo && s'.undo[t] == s.undo[t] && t in s'.spec.writes && s'.spec.writes[t] == s.spec.writes[t]
    ensures TxnOk(s', t)
  {
  }

  lemma SameLogs(s: State, s': State)
    requires LogsOk(s) && s'.order == s.order && s.nextTxn <= s'.nextTxn && s'.owner == s.owner
    requires s'.active <= s.active && s'.undo == s.undo && s'.spec.writes == s.spec.writes
    ensures LogsOk(s')
  {
    hide RowWrites, RowOps, LogOk;
    forall x | x in s'.active ensures TxnOk(s', x) { assert TxnOk(s, x); TxnKept(s, s', x); }
  }

  lemma PassesKept(s: State, s': State)
    requires PassesOk(s) && s'.passes == s.passes && s.nextTxn <= s'.nextTxn
    requires forall x {:trigger x in s'.active} :: x in s'.active ==> x in s.active || x >= s.nextTxn
    requires forall t {:trigger s'.pinned[t]} :: t in s'.pinned ==>
               || (t in s.pinned && s'.pinned[t] == s.pinned[t])
               || (forall x: nat {:trigger Sees(s'.pinned[t], x)} :: x < s.nextTxn && x !in s.active ==> Sees(s'.pinned[t], x))
    requires forall k {:trigger s'.scans[k]} :: k in s'.scans ==>
               || (k in s.scans && s'.scans[k] == s.scans[k])
               || (exists t {:trigger s.pinned[t]} :: t in s.pinned && s.pinned[t] == s'.scans[k].view)
    ensures PassesOk(s')
  {
    forall i, x: nat | 0 <= i < |s'.passes| && Settled(s'.passes[i], x) ensures SeenByAll(s', x) {
      assert SeenByAll(s, x);
    }
  }

  /** What the store and the reference machine agree on at a glance. */
  lemma Basics(s: State, t: nat)
    requires Inv(s)
    ensures WellFormed(s.spec) && s.spec.history != []
    ensures s.nextTxn == s.spec.nextTxn && s.nextRow == s.spec.nextRow && s.nextScan == s.spec.nextScan
    ensures t in s.pinned <==> t in s.spec.at
    ensures t in s.scans <==> t in s.spec.cursors
    ensures t in s.pinned ==> t in s.active
    ensures (t in s.active <==> t in s.spec.writes) && (t in s.active <==> t in s.undo)
    ensures t in s.active ==> (s.undo[t] == [] <==> s.spec.writes[t] == [])
    ensures s.parking.None? <==> s.spec.latch.None?
    ensures Idle(s.spec, t) <==> !(s.parking.Some? && s.parking.value.txn == t)
  {
    hide RowsOk, PassesOk, SlotsOk, ScanOk, PinnedOk, MayWrite;
    assert t in s.active ==> TxnOk(s, t);
  }

  lemma TxnBelow(s: State, t: nat)
    requires TxnsOk(s) && t in s.active
    ensures 0 < t < s.nextTxn && t !in s.order
  {
    assert TxnOk(s, t);
  }

  /** The store before anything happened. */
  lemma EmptyIsOk(s: State)
    requires s.rows == map[] && s.hist == map[] && s.arena == [] && s.free == [] && s.orphans == []
    requires s.active == {} && s.undo == map[] && s.pinned == map[] && s.scans == map[] && s.passes == []
    requires s.order == map[] && s.owner == map[] && s.use == map[] && s.scanAt == map[] && s.parking == None
    requires s.nextTxn == 1 && s.spec == Spec([map[]], map[], 1, s.nextRow, s.nextScan, map[], map[], map[], None)
    ensures Inv(s)
  {
    forall row: nat ensures RowOk(s, row) && Saw(s, row) {
      assert Bottom([], []) == [];
    }
  }

  // Begin ----------------------------------------------------------------------------------------

  function FreshView(s: State, t: nat): ReadView {
    ReadView(t, s.active - {t}, s.nextTxn)
  }

  ghost function Begun(s: State): State {
    var t := s.nextTxn;
    s.(nextTxn := t + 1, active := s.active + {t}, undo := s.undo[t := []],
       pinned := s.pinned[t := ReadView(t, s.active - {t}, t + 1)], spec := Begins(s.spec))
  }

  lemma BeginLogs(s: State)
    requires TxnsOk(s)
    ensures LogsOk(Begun(s))
  {
    hide RowWrites, WellFormed, OrderOk;
    var t, s' := s.nextTxn, Begun(s);
    OrderBelow(s, t);
    forall x | x in s'.active ensures TxnOk(s', x) {
      if x != t { assert TxnOk(s, x); TxnKept(s, s', x); }
    }
  }

  lemma OrderBelow(s: State, x: nat)
    requires OrderOk(s)
    ensures x in s.order ==> x < s.nextTxn
  {
    assert x in s.order ==> s.order[x] >= 0;
  }

  lemma BeginTxns(s: State)
    requires TxnsOk(s) && s.nextTxn < NO_UNDO
    ensures TxnsOk(Begun(s)) && Calm(s, Begun(s))
  {
    hide LogsOk;
    BeginLogs(s);
  }

  lemma BeginQuiet(s: State)
    requires TxnsOk(s)
    ensures Quiet(s, Begun(s))
  {
  }

  lemma BeginViews(s: State)
    requires TxnsOk(s) && ViewsOk(s)
    requires TxnsOk(Begun(s)) && Calm(s, Begun(s))
    ensures ViewsOk(Begun(s))
  {
    hide RowWrites, Expected, ViewOk;
    var t, s' := s.nextTxn, Begun(s);
    assert t in s.active ==> TxnOk(s, t);
    FreshIsOk(s, s', s'.pinned[t], t);
    forall x: nat ensures PinnedOk(s', x) {
      assert PinnedOk(s, x);
      if x in s.pinned { PinnedKept(s, s', x); }
    }
    forall k: nat ensures ScanOk(s', k) {
      assert ScanOk(s, k);
      if k in s.scans { ScanKept(s, s', k); }
    }
  }

  lemma BeginRows(s: State)
    requires TxnsOk(s) && RowsOk(s) && Quiet(s, Begun(s))
    ensures RowsOk(Begun(s))
  {
    hide Stacked, Base, Ops, Vals, Linked, Quiet;
    var s' := Begun(s);
    forall row | row in s.owner ensures s.owner[row] in s.active && s.owner[row] != s.nextTxn {
      assert RowOk(s, row);
      assert TxnOk(s, s.owner[row]);
    }
    RowsKept(s, s');
    forall row: nat ensures Saw(s', row) { assert Saw(s, row) && RowOk(s, row); }
  }

  lemma BeginKeeps(s: State)
    requires Inv(s) && s.nextTxn < NO_UNDO
    ensures Inv(Begun(s))
  {
    hide RowsOk, ViewsOk, Quiet;
    BeginTxns(s);
    BeginQuiet(s);
    BeginViews(s);
    BeginRows(s);
    PassesKept(s, Begun(s));
    SlotsKept(s, Begun(s));
  }

  // Refresh --------------------------------------------------------------------------------------

  ghost function Refreshed(s: State, t: nat): State {
    s.(pinned := s.pinned[t := FreshView(s, t)], spec := Refreshes(s.spec, t))
  }

  lemma RefreshTxns(s: State, t: nat)
    requires TxnsOk(s) && t in s.pinned
    ensures TxnsOk(Refreshed(s, t)) && Calm(s, Refreshed(s, t))
  {
    hide RowWrites, LogOk;
    var s' := Refreshed(s, t);
    forall x | x in s'.active ensures TxnOk(s', x) { assert TxnOk(s, x); TxnKept(s, s', x); }
  }

  lemma RefreshQuiet(s: State, t: nat)
    requires TxnsOk(s) && t in s.pinned
    ensures Quiet(s, Refreshed(s, t))
  {
  }

  lemma RefreshViews(s: State, t: nat)
    requires TxnsOk(s) && ViewsOk(s) && t in s.pinned
    ensures ViewsOk(Refreshed(s, t))
  {
    hide RowWrites, Expected, ViewOk;
    var s' := Refreshed(s, t);
    assert TxnOk(s, t);
    FreshIsOk(s, s', s'.pinned[t], t);
    forall x: nat ensures PinnedOk(s', x) {
      assert PinnedOk(s, x);
      if x in s.pinned && x != t { PinnedKept(s, s', x); }
    }
    forall k: nat ensures ScanOk(s', k) {
      assert ScanOk(s, k);
      if k in s.scans { ScanKept(s, s', k); }
    }
  }

  lemma RefreshRows(s: State, t: nat)
    requires TxnsOk(s) && RowsOk(s) && Quiet(s, Refreshed(s, t)) && t in s.pinned
    ensures RowsOk(Refreshed(s, t))
  {
    hide Stacked, Base, Ops, Vals, Linked, Quiet;
    var s' := Refreshed(s, t);
    forall row | row in s.owner ensures s.owner[row] in s.active { assert RowOk(s, row); }
    RowsKept(s, s');
    forall row: nat ensures Saw(s', row) { assert Saw(s, row) && RowOk(s, row); }
  }

  lemma RefreshKeeps(s: State, t: nat)
    requires Inv(s) && t in s.pinned && Idle(s.spec, t)
    ensures Inv(Refreshed(s, t))
  {
    hide RowsOk, ViewsOk, Quiet;
    RefreshTxns(s, t);
    RefreshQuiet(s, t);
    RefreshViews(s, t);
    RefreshRows(s, t);
    PassesKept(s, Refreshed(s, t));
    SlotsKept(s, Refreshed(s, t));
  }

  // Abort and finish -----------------------------------------------------------------------------

  function ScansWithout(scans: map<nat, Scan>, t: nat): map<nat, Scan> {
    map k | k in scans && scans[k].txn != t :: scans[k]
  }

  ghost function TimesWithout(scanAt: map<nat, nat>, scans: map<nat, Scan>, t: nat): map<nat, nat> {
    map k | k in scanAt && k in scans && scans[k].txn != t :: scanAt[k]
  }

  /** `s` with the scans of `t` closed, and read-only bookkeeping to match. */
  ghost function Drained(s: State, t: nat): State {
    s.(scans := ScansWithout(s.scans, t), scanAt := TimesWithout(s.scanAt, s.scans, t),
       spec := Closes(s.spec, t))
  }

  lemma DrainTxns(s: State, t: nat)
    requires TxnsOk(s)
    ensures TxnsOk(Drained(s, t)) && Calm(s, Drained(s, t))
  {
    hide RowWrites, LogOk;
    var s' := Drained(s, t);
    forall x | x in s'.active ensures TxnOk(s', x) { assert TxnOk(s, x); TxnKept(s, s', x); }
  }

  lemma DrainQuiet(s: State, t: nat)
    ensures Quiet(s, Drained(s, t))
  {
    var s' := Drained(s, t);
    forall at: nat | LiveTime(s', at) ensures LiveTime(s, at) {
      if k :| k in s'.scanAt && s'.scanAt[k] == at { assert k in s.scanAt && s.scanAt[k] == at; }
    }
  }

  lemma DrainViews(s: State, t: nat)
    requires TxnsOk(s) && ViewsOk(s)
    ensures ViewsOk(Drained(s, t))
  {
    hide RowWrites, Expected, ViewOk;
    var s' := Drained(s, t);
    forall x: nat ensures PinnedOk(s', x) {
      assert PinnedOk(s, x);
      if x in s.pinned { PinnedKept(s, s', x); }
    }
    forall k: nat ensures ScanOk(s', k) {
      assert ScanOk(s, k);
      if k in s'.scans { ScanKept(s, s', k); }
    }
    forall k: nat ensures k in s'.scans <==> k in s'.spec.cursors { assert ScanOk(s, k); }
  }

  lemma DrainRows(s: State, t: nat)
    requires TxnsOk(s) && RowsOk(s) && Quiet(s, Drained(s, t))
    ensures RowsOk(Drained(s, t))
  {
    hide Stacked, Base, Ops, Vals, Linked, Quiet;
    var s' := Drained(s, t);
    forall row | row in s.owner ensures s.owner[row] in s.active { assert RowOk(s, row); }
    RowsKept(s, s');
    forall row: nat ensures Saw(s', row) { assert Saw(s, row) && RowOk(s, row); }
  }

  lemma DrainKeeps(s: State, t: nat)
    requires Inv(s)
    ensures Inv(Drained(s, t))
  {
    hide RowsOk, ViewsOk, Quiet;
    DrainTxns(s, t);
    DrainQuiet(s, t);
    DrainViews(s, t);
    DrainRows(s, t);
    PassesKept(s, Drained(s, t));
    SlotsKept(s, Drained(s, t));
  }

  ghost predicate NoScans(s: State, t: nat) {
    forall k {:trigger s.scans[k]} :: k in s.scans ==> s.scans[k].txn != t
  }

  // Abort and finish -----------------------------------------------------------------------------

  ghost function Aborted(s: State, t: nat): State {
    s.(pinned := s.pinned - {t}, spec := Aborts(s.spec, t))
  }

  lemma AbortTxns(s: State, t: nat)
    requires TxnsOk(s) && ViewsOk(s) && NoScans(s, t) && Idle(s.spec, t)
    ensures TxnsOk(Aborted(s, t)) && Calm(s, Aborted(s, t))
  {
    hide LogsOk, ViewOk, Expected;
    var s' := Aborted(s, t);
    SameLogs(s, s');
    forall k | k in s.spec.cursors ensures s.spec.cursors[k].txn in s'.spec.at { assert ScanOk(s, k); }
  }

  lemma AbortQuiet(s: State, t: nat)
    ensures Quiet(s, Aborted(s, t))
  {
  }

  lemma AbortViews(s: State, t: nat)
    requires TxnsOk(s) && ViewsOk(s) && NoScans(s, t) && Calm(s, Aborted(s, t))
    ensures ViewsOk(Aborted(s, t))
  {
    hide RowWrites, Expected, ViewOk, Calm;
    var s' := Aborted(s, t);
    forall x: nat ensures PinnedOk(s', x) {
      assert PinnedOk(s, x);
      if x in s'.pinned { PinnedKept(s, s', x); }
    }
    forall k: nat ensures ScanOk(s', k) {
      assert ScanOk(s, k);
      if k in s.scans { ScanKept(s, s', k); }
    }
  }

  lemma AbortRows(s: State, t: nat)
    requires TxnsOk(s) && RowsOk(s) && Quiet(s, Aborted(s, t))
    ensures RowsOk(Aborted(s, t))
  {
    hide Stacked, Base, Ops, Vals, Linked, Quiet;
    var s' := Aborted(s, t);
    forall row | row in s.owner ensures s.owner[row] in s.active { assert RowOk(s, row); }
    RowsKept(s, s');
    forall row: nat ensures Saw(s', row) { assert Saw(s, row) && RowOk(s, row); }
  }

  lemma AbortKeeps(s: State, t: nat)
    requires Inv(s) && NoScans(s, t) && Idle(s.spec, t)
    ensures Inv(Aborted(s, t))
  {
    hide RowsOk, Quiet;
    AbortTxns(s, t);
    AbortQuiet(s, t);
    AbortViews(s, t);
    AbortRows(s, t);
    PassesKept(s, Aborted(s, t));
    SlotsKept(s, Aborted(s, t));
  }

  ghost function Finished(s: State, t: nat): State {
    s.(active := s.active - {t}, undo := s.undo - {t}, spec := Finishes(s.spec, t))
  }

  lemma FinishTxns(s: State, t: nat)
    requires TxnsOk(s) && t !in s.pinned
    ensures TxnsOk(Finished(s, t)) && Calm(s, Finished(s, t))
  {
    hide RowWrites, LogOk;
    var s' := Finished(s, t);
    forall x | x in s'.active ensures TxnOk(s', x) { assert TxnOk(s, x); TxnKept(s, s', x); }
  }

  lemma FinishQuiet(s: State, t: nat)
    ensures Quiet(s, Finished(s, t))
  {
  }

  lemma FinishViews(s: State, t: nat)
    requires TxnsOk(s) && ViewsOk(s) && t !in s.pinned && Calm(s, Finished(s, t))
    ensures ViewsOk(Finished(s, t))
  {
    hide RowWrites, Expected, ViewOk, Calm;
    var s' := Finished(s, t);
    forall x: nat ensures PinnedOk(s', x) {
      assert PinnedOk(s, x);
      if x in s.pinned { PinnedKept(s, s', x); }
    }
    forall k: nat ensures ScanOk(s', k) {
      assert ScanOk(s, k);
      if k in s.scans { ScanKept(s, s', k); }
    }
  }

  lemma FinishRows(s: State, t: nat)
    requires TxnsOk(s) && RowsOk(s) && Quiet(s, Finished(s, t)) && t in s.undo && s.undo[t] == []
    ensures RowsOk(Finished(s, t))
  {
    hide Stacked, Base, Vals, Linked, Quiet;
    var s' := Finished(s, t);
    forall row | row in s.owner ensures s.owner[row] in s.active && s.owner[row] != t { assert RowOk(s, row); }
    RowsKept(s, s');
    forall row: nat ensures Saw(s', row) { assert Saw(s, row) && RowOk(s, row); }
  }

  lemma FinishKeeps(s: State, t: nat)
    requires Inv(s) && t in s.undo && s.undo[t] == [] && t !in s.pinned
    ensures Inv(Finished(s, t))
  {
    hide RowsOk, Quiet, ViewsOk;
    FinishTxns(s, t);
    FinishQuiet(s, t);
    FinishViews(s, t);
    FinishRows(s, t);
    PassesKept(s, Finished(s, t));
    SlotsKept(s, Finished(s, t));
  }

  // Scans ----------------------------------------------------------------------------------------

  ghost function Opened(s: State, t: nat): State
    requires t in s.pinned
  {
    var k := s.nextScan;
    s.(nextScan := k + 1, scans := s.scans[k := Scan(t, s.pinned[t], s.nextRow)],
       scanAt := s.scanAt[k := if t in s.spec.at then s.spec.at[t] else 0], spec := Opens(s.spec, t))
  }

  lemma OpenTxns(s: State, t: nat)
    requires TxnsOk(s) && t in s.pinned
    ensures TxnsOk(Opened(s, t)) && Calm(s, Opened(s, t))
  {
    hide RowWrites, LogOk, Apply;
    var s' := Opened(s, t);
    forall x | x in s'.active ensures TxnOk(s', x) { assert TxnOk(s, x); TxnKept(s, s', x); }
  }

  lemma OpenQuiet(s: State, t: nat)
    requires TxnsOk(s) && t in s.pinned
    ensures Quiet(s, Opened(s, t))
  {
    hide RowWrites, Apply;
    var s' := Opened(s, t);
    forall at: nat | LiveTime(s', at) ensures LiveTime(s, at) {
      if k :| k in s'.scanAt && s'.scanAt[k] == at {
        assert k != s.nextScan ==> s.scanAt[k] == at;
        assert s.spec.at[t] < |s.spec.history|;
      }
    }
  }

  /** A row number not handed out yet names no row, in any table anyone reads. */
  lemma {:induction false} UnusedRow(s: State, row: nat)
    requires TxnsOk(s) && RowsOk(s) && row >= s.nextRow
    ensures row !in s.rows && row !in s.hist && row !in s.owner && row !in s.spec.changed
    ensures forall at: nat {:trigger LiveTime(s, at)} :: LiveTime(s, at) ==> row !in s.spec.history[at]
    ensures forall t {:trigger s.spec.writes[t]} :: t in s.spec.writes ==> !Wrote(s.spec.writes[t], row)
    ensures forall t {:trigger s.undo[t]} :: t in s.undo ==> RowOps(s.undo[t], row) == []
  {
    assert RowOk(s, row);
    assert Hist(s, row) == [];
    assert row !in s.owner;
    assert Bottom([], []) == [];
    forall t | t in s.spec.writes ensures !Wrote(s.spec.writes[t], row) && RowOps(s.undo[t], row) == [] {
      assert TxnOk(s, t);
      LogRows(s.undo[t], s.spec.writes[t], row);
    }
  }

  lemma OpenedScan(s: State, t: nat)
    requires TxnsOk(s) && ViewsOk(s) && RowsOk(s) && t in s.pinned && Calm(s, Opened(s, t))
    ensures ScanOk(Opened(s, t), s.nextScan)
  {
    hide RowWrites, Apply, RowOk, LastWrite, Saw, TxnOk, ViewOk;
    var s', at := Opened(s, t), s.spec.at[t];
    assert PinnedOk(s, t);
    ViewKept(s, s', s.pinned[t], t, at);
    assert LiveTime(s, at);
    forall row: nat
      ensures Get(Apply(s.spec.history[at], s.spec.writes[t]), row)
              == if row < s.nextRow then Expected(s.spec, t, at, row) else None
    {
      ApplyGet(s.spec.history[at], s.spec.changed, s.spec.writes[t], 0, row);
      if row >= s.nextRow { UnusedRow(s, row); }
    }
  }

  lemma OpenViews(s: State, t: nat)
    requires TxnsOk(s) && ViewsOk(s) && RowsOk(s) && t in s.pinned && Calm(s, Opened(s, t))
    ensures ViewsOk(Opened(s, t))
  {
    hide RowWrites, Apply, RowOk, LastWrite, Saw, TxnOk, ViewOk, Expected, Calm;
    var s' := Opened(s, t);
    OpenedScan(s, t);
    forall x: nat ensures PinnedOk(s', x) {
      assert PinnedOk(s, x);
      if x in s.pinned { PinnedKept(s, s', x); }
    }
    forall k: nat ensures ScanOk(s', k) {
      assert ScanOk(s, k);
      if k in s.scans { ScanKept(s, s', k); }
    }
  }

  lemma OpenRows(s: State, t: nat)
    requires TxnsOk(s) && RowsOk(s) && t in s.pinned && Quiet(s, Opened(s, t))
    ensures RowsOk(Opened(s, t))
  {
    hide Stacked, Base, Ops, Vals, Linked, Quiet, Apply;
    var s' := Opened(s, t);
    forall row | row in s.owner ensures s.owner[row] in s.active { assert RowOk(s, row); }
    RowsKept(s, s');
    forall row: nat ensures Saw(s', row) { assert Saw(s, row) && RowOk(s, row); }
  }

  lemma OpenKeeps(s: State, t: nat)
    requires Inv(s) && t in s.pinned && Idle(s.spec, t)
    ensures Inv(Opened(s, t))
  {
    hide RowsOk, Quiet, ViewsOk, Apply;
    OpenTxns(s, t);
    OpenQuiet(s, t);
    OpenViews(s, t);
    OpenRows(s, t);
    PassesKept(s, Opened(s, t));
    SlotsKept(s, Opened(s, t));
  }

  ghost function Closed(s: State, k: nat): State {
    s.(scans := s.scans - {k}, scanAt := s.scanAt - {k}, spec := s.spec.(cursors := s.spec.cursors - {k}))
  }

  lemma CloseTxns(s: State, k: nat)
    requires TxnsOk(s)
    ensures TxnsOk(Closed(s, k)) && Calm(s, Closed(s, k))
  {
    hide RowWrites, LogOk;
    var s' := Closed(s, k);
    forall x | x in s'.active ensures TxnOk(s', x) { assert TxnOk(s, x); TxnKept(s, s', x); }
  }

  lemma CloseQuiet(s: State, k: nat)
    ensures Quiet(s, Closed(s, k))
  {
    var s' := Closed(s, k);
    forall at: nat | LiveTime(s', at) ensures LiveTime(s, at) {
      if j :| j in s'.scanAt && s'.scanAt[j] == at { assert j in s.scanAt && s.scanAt[j] == at; }
    }
  }

  lemma CloseViews(s: State, k: nat)
    requires TxnsOk(s) && ViewsOk(s)
    ensures ViewsOk(Closed(s, k))
  {
    hide RowWrites, Expected, ViewOk;
    var s' := Closed(s, k);
    forall x: nat ensures PinnedOk(s', x) {
      assert PinnedOk(s, x);
      if x in s.pinned { PinnedKept(s, s', x); }
    }
    forall j: nat ensures ScanOk(s', j) {
      assert ScanOk(s, j);
      if j in s'.scans { ScanKept(s, s', j); }
    }
  }

  lemma CloseRows(s: State, k: nat)
    requires TxnsOk(s) && RowsOk(s) && Quiet(s, Closed(s, k))
    ensures RowsOk(Closed(s, k))
  {
    hide Stacked, Base, Ops, Vals, Linked, Quiet;
    var s' := Closed(s, k);
    forall row | row in s.owner ensures s.owner[row] in s.active { assert RowOk(s, row); }
    RowsKept(s, s');
    forall row: nat ensures Saw(s', row) { assert Saw(s, row) && RowOk(s, row); }
  }

  lemma CloseKeeps(s: State, k: nat)
    requires Inv(s)
    ensures Inv(Closed(s, k))
  {
    hide RowsOk, Quiet, ViewsOk;
    CloseTxns(s, k);
    CloseQuiet(s, k);
    CloseViews(s, k);
    CloseRows(s, k);
    PassesKept(s, Closed(s, k));
    SlotsKept(s, Closed(s, k));
  }

  // The snapshot of a purge pass -----------------------------------------------------------------

  function SnapshotPass(s: State): Pass {
    Pass(s.pinned.Values + (set k | k in s.scans :: Pin(s.scans[k])), s.active, s.nextTxn)
  }

  /** A pass may act on exactly what every view now open sees, and what is seen so stays seen by every
      later one. */
  lemma SnapshotSettles(s: State, x: nat)
    requires TxnsOk(s) && ViewsOk(s)
    ensures Settled(SnapshotPass(s), x) <==> SeenByAll(s, x)
  {
    hide Expected;
    var p := SnapshotPass(s);
    if Settled(p, x) {
      forall k | k in s.scans ensures Sees(s.scans[k].view, x) {
        assert Pin(s.scans[k]) in p.pinned;
        assert Sees(Pin(s.scans[k]), x);
      }
      forall t | t in s.pinned ensures Sees(s.pinned[t], x) {
        assert s.pinned[t] in p.pinned;
      }
    }
    if SeenByAll(s, x) {
      forall v | v in p.pinned ensures Sees(v, x) {
        if k :| k in s.scans && v == Pin(s.scans[k]) {
          assert ScanOk(s, k) && Sees(s.scans[k].view, x);
        } else {
          var t :| t in s.pinned && v == s.pinned[t];
        }
      }
    }
  }
}
