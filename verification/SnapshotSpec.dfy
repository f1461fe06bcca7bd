/** Snapshot isolation with first-updater-wins, as a reference machine with no version chains, no
    arena and nothing to purge: a list of committed tables, and each transaction's own writes. */
module SnapshotSpec {
  import opened Bytes
  import opened VersionChain

  type Table = map<nat, Tuple>

  datatype Write = Write(row: nat, value: Option<Tuple>)

  /** An open scan reads a fixed table. */
  datatype Cursor = Cursor(txn: nat, content: Table)

  /** `history` holds the committed table after each commit; `changed` the number of the commit
      that last changed a row; `at` the committed table each running transaction reads; `latch`
      the transaction and row of a write that is under way. */
  datatype Spec = Spec(
    history: seq<Table>, changed: map<nat, nat>, nextTxn: nat, nextRow: nat, nextScan: nat,
    writes: map<nat, seq<Write>>, at: map<nat, nat>, cursors: map<nat, Cursor>, latch: Option<(nat, nat)>)

  datatype Command =
    | Begin | Refresh(txn: nat) | Commit(txn: nat) | Abort(txn: nat) | StepBack(txn: nat) | Finish(txn: nat)
    | Insert(txn: nat, tuple: Tuple) | Park(txn: nat, row: nat) | Install(tuple: Tuple) | Delete(txn: nat, row: nat)
    | Read(txn: nat, row: nat) | OpenScan(txn: nat) | ReadScan(scan: nat, row: nat) | CloseScan(scan: nat)
    | PurgeSnapshot | PurgeRow(pass: nat, row: nat) | PurgeOrphans(pass: nat)

  datatype Reply = Done | Busy | Unknown | Conflict | NotFound | Id(id: nat) | Value(value: Option<Tuple>)

  function Get(table: Table, row: nat): Option<Tuple> {
    if row in table then Some(table[row]) else None
  }

  /** The values written to one row, oldest first. */
  function RowWrites(ws: seq<Write>, row: nat): seq<Option<Tuple>> {
    if ws == [] then []
    else
      var last := ws[|ws| - 1];
      RowWrites(ws[..|ws| - 1], row) + if last.row == row then [last.value] else []
  }

  predicate Wrote(ws: seq<Write>, row: nat) { RowWrites(ws, row) != [] }

  function LastWrite(ws: seq<Write>, row: nat): Option<Tuple>
    requires Wrote(ws, row)
  {
    RowWrites(ws, row)[|RowWrites(ws, row)| - 1]
  }

  /** A table after some writes, and the commit numbers after them. */
  function Apply(table: Table, ws: seq<Write>): Table {
    if ws == [] then table
    else
      var before, last := Apply(table, ws[..|ws| - 1]), ws[|ws| - 1];
      match last.value
      case Some(t) => before[last.row := t]
      case None => before - {last.row}
  }

  function Mark(changed: map<nat, nat>, ws: seq<Write>, commit: nat): map<nat, nat> {
    if ws == [] then changed else Mark(changed, ws[..|ws| - 1], commit)[ws[|ws| - 1].row := commit]
  }

  lemma {:induction false} ApplyGet(table: Table, changed: map<nat, nat>, ws: seq<Write>, commit: nat, row: nat)
    ensures Get(Apply(table, ws), row) == if Wrote(ws, row) then LastWrite(ws, row) else Get(table, row)
    ensures Wrote(ws, row) ==> row in Mark(changed, ws, commit) && Mark(changed, ws, commit)[row] == commit
    ensures !Wrote(ws, row) ==> (row in Mark(changed, ws, commit) <==> row in changed)
    ensures !Wrote(ws, row) && row in changed ==> Mark(changed, ws, commit)[row] == changed[row]
    decreases |ws|
  {
    if ws != [] {
      ApplyGet(table, changed, ws[..|ws| - 1], commit, row);
    }
  }

  /** The number of commits so far, and the table they left. */
  function Clock(sp: Spec): nat { if sp.history == [] then 0 else |sp.history| - 1 }

  function Latest(sp: Spec): Table { if sp.history == [] then map[] else sp.history[Clock(sp)] }

  function WritesOf(sp: Spec, t: nat): seq<Write> { if t in sp.writes then sp.writes[t] else [] }

  /** What a transaction reads: its own last write of the row, or the row as committed. */
  function Expected(sp: Spec, txn: nat, at: nat, row: nat): Option<Tuple>
    requires txn in sp.writes && at < |sp.history|
  {
    if Wrote(sp.writes[txn], row) then LastWrite(sp.writes[txn], row) else Get(sp.history[at], row)
  }

  ghost predicate WrittenByOther(sp: Spec, txn: nat, row: nat) {
    exists other {:trigger sp.writes[other]} :: other in sp.writes && other != txn && Wrote(sp.writes[other], row)
  }

  /** Whether a transaction may write a row. */
  ghost function Admit(sp: Spec, txn: nat, row: nat): Reply
    requires txn in sp.writes && txn in sp.at && sp.history != []
  {
    if WrittenByOther(sp, txn, row) then Conflict
    else if Wrote(sp.writes[txn], row) then
      if LastWrite(sp.writes[txn], row).Some? then Done else NotFound
    else if row in sp.changed && sp.changed[row] > sp.at[txn] then Conflict
    else if row in Latest(sp) then Done
    else NotFound
  }

  function Without(cursors: map<nat, Cursor>, txn: nat): map<nat, Cursor> {
    map k | k in cursors && cursors[k].txn != txn :: cursors[k]
  }

  function Append(sp: Spec, txn: nat, w: Write): Spec {
    sp.(writes := sp.writes[txn := WritesOf(sp, txn) + [w]])
  }

  /** The transaction is running, and no write of its own is under way. */
  predicate Idle(sp: Spec, txn: nat) {
    sp.latch.None? || sp.latch.value.0 != txn
  }

  ghost predicate WellFormed(sp: Spec) {
    && sp.history != []
    && sp.at.Keys <= sp.writes.Keys
    && (forall t {:trigger sp.at[t]} :: t in sp.at ==> sp.at[t] < |sp.history|)
    && (forall row {:trigger sp.changed[row]} :: row in sp.changed ==> sp.changed[row] < |sp.history|)
    && (sp.latch.Some? ==> sp.latch.value.0 in sp.at)
    && (forall k {:trigger sp.cursors[k]} :: k in sp.cursors ==> sp.cursors[k].txn in sp.at)
  }

  function Begins(sp: Spec): Spec {
    sp.(nextTxn := sp.nextTxn + 1, writes := sp.writes[sp.nextTxn := []], at := sp.at[sp.nextTxn := Clock(sp)])
  }

  function Refreshes(sp: Spec, t: nat): Spec { sp.(at := sp.at[t := Clock(sp)]) }

  function Commits(sp: Spec, t: nat): Spec {
    sp.(history := sp.history + [Apply(Latest(sp), WritesOf(sp, t))],
        changed := Mark(sp.changed, WritesOf(sp, t), |sp.history|),
        writes := sp.writes - {t}, at := sp.at - {t})
  }

  function Aborts(sp: Spec, t: nat): Spec { sp.(at := sp.at - {t}) }

  function StepsBack(sp: Spec, t: nat): Spec {
    var ws := WritesOf(sp, t);
    sp.(writes := sp.writes[t := if ws == [] then [] else ws[..|ws| - 1]])
  }

  function Finishes(sp: Spec, t: nat): Spec { sp.(writes := sp.writes - {t}) }

  function Closes(sp: Spec, t: nat): Spec { sp.(cursors := Without(sp.cursors, t)) }

  /** The committed table a transaction reads. */
  function BaseOf(sp: Spec, t: nat): Table {
    if t in sp.at && sp.at[t] < |sp.history| then sp.history[sp.at[t]] else map[]
  }

  function Opens(sp: Spec, t: nat): Spec {
    sp.(nextScan := sp.nextScan + 1,
        cursors := sp.cursors[sp.nextScan := Cursor(t, Apply(BaseOf(sp, t), WritesOf(sp, t)))])
  }

  /** One step of the reference machine. */
  ghost function Step(sp: Spec, c: Command): (r: (Spec, Reply))
    requires WellFormed(sp)
  {
    match c
    case Begin => (Begins(sp), Id(sp.nextTxn))
    case Refresh(t) =>
      if t !in sp.at then (sp, Unknown) else if !Idle(sp, t) then (sp, Busy) else (Refreshes(sp, t), Done)
    case Commit(t) =>
      if t !in sp.at then (sp, Unknown) else if !Idle(sp, t) then (sp, Busy) else (Commits(Closes(sp, t), t), Done)
    case Abort(t) =>
      if t !in sp.at then (sp, Unknown) else if !Idle(sp, t) then (sp, Busy) else (Aborts(Closes(sp, t), t), Done)
    case StepBack(t) =>
      if t !in sp.writes then (sp, Unknown) else if sp.latch.Some? then (sp, Busy) else (StepsBack(Closes(sp, t), t), Done)
    case Finish(t) =>
      if t !in sp.writes || t in sp.at then (sp, Unknown)
      else if sp.writes[t] != [] then (sp, Busy)
      else (Finishes(sp, t), Done)
    case Insert(t, tuple) =>
      if t !in sp.at then (sp, Unknown)
      else if sp.latch.Some? then (sp, Busy)
      else (Append(sp, t, Write(sp.nextRow, Some(tuple))).(nextRow := sp.nextRow + 1), Id(sp.nextRow))
    case Park(t, row) =>
      if t !in sp.at then (sp, Unknown)
      else if sp.latch.Some? then (sp, Busy)
      else if Admit(sp, t, row) != Done then (Closes(sp, t), Admit(sp, t, row))
      else (Closes(sp, t).(latch := Some((t, row))), Done)
    case Install(tuple) =>
      if sp.latch.None? then (sp, Unknown)
      else (Append(sp, sp.latch.value.0, Write(sp.latch.value.1, Some(tuple))).(latch := None), Done)
    case Delete(t, row) =>
      if t !in sp.at then (sp, Unknown)
      else if sp.latch.Some? then (sp, Busy)
      else if Admit(sp, t, row) != Done then (Closes(sp, t), Admit(sp, t, row))
      else (Append(Closes(sp, t), t, Write(row, None)), Done)
    case Read(t, row) =>
      if t !in sp.at then (sp, Unknown) else (sp, Value(Expected(sp, t, sp.at[t], row)))
    case OpenScan(t) =>
      if t !in sp.at then (sp, Unknown) else if !Idle(sp, t) then (sp, Busy) else (Opens(sp, t), Id(sp.nextScan))
    case ReadScan(k, row) =>
      if k !in sp.cursors then (sp, Unknown) else (sp, Value(Get(sp.cursors[k].content, row)))
    case CloseScan(k) =>
      if k !in sp.cursors then (sp, Unknown) else (sp.(cursors := sp.cursors - {k}), Done)
    case PurgeSnapshot => (sp, Done)
    case PurgeRow(_, _) => (sp, Done)
    case PurgeOrphans(_) => (sp, Done)
  }

  /** The machine goes from `sp` to `sp'` on `c`, and answers `r`. */
  ghost predicate Steps(sp: Spec, c: Command, sp': Spec, r: Reply) {
    WellFormed(sp) && Step(sp, c) == (sp', r)
  }

  lemma {:induction false} MarkBound(changed: map<nat, nat>, ws: seq<Write>, commit: nat, row: nat)
    requires row in Mark(changed, ws, commit)
    ensures Mark(changed, ws, commit)[row] == commit || (row in changed && Mark(changed, ws, commit)[row] == changed[row])
    decreases |ws|
  {
    if ws != [] && row != ws[|ws| - 1].row {
      MarkBound(changed, ws[..|ws| - 1], commit, row);
    }
  }

  lemma StepWellFormed(sp: Spec, c: Command)
    requires WellFormed(sp)
    ensures WellFormed(Step(sp, c).0)
  {
    if c.Commit? && c.txn in sp.at {
      var changed := Mark(sp.changed, sp.writes[c.txn], |sp.history|);
      forall row | row in changed ensures changed[row] <= |sp.history| {
        MarkBound(sp.changed, sp.writes[c.txn], |sp.history|, row);
      }
    }
  }
}
