/** Snapshot isolation as its users see it: laws about answers alone, for every run of commands. */
module IsolationLaws {
  import opened Bytes
  import opened VersionChain
  import opened SnapshotSpec
  import opened SnapshotLaws
  import opened SnapshotAnswers

  // Which commands are taken ---------------------------------------------------------------------

  /** Commands of a transaction that is not running are unknown, and those that would disturb an
      update under way are told to wait; all others are taken. */
  lemma Taken(cs: seq<Command>, t: nat)
    ensures Ask(cs, Begin).Id? && Ask(cs, Begin).id !in Live(cs) && Logged(cs, Ask(cs, Begin).id) == []
    ensures var turn := if t !in Live(cs) then Unknown
                        else if UnderWay(cs).Some? && UnderWay(cs).value.0 == t then Busy else Done;
            && Ask(cs, Refresh(t)) == Ask(cs, Commit(t)) == Ask(cs, Abort(t)) == turn
            && (turn != Done ==> Ask(cs, OpenScan(t)) == turn) && (turn == Done ==> Ask(cs, OpenScan(t)).Id?)
    ensures Ask(cs, StepBack(t)) ==
            if t !in Unsettled(cs) then Unknown else if UnderWay(cs).Some? then Busy else Done
    ensures Ask(cs, Finish(t)) ==
            if t !in Unsettled(cs) || t in Live(cs) then Unknown else if Logged(cs, t) != [] then Busy else Done
  {
    hide After, Live, Unsettled, UnderWay, Logged, RowWrites, Apply, Mark, Expected;
    AlwaysAgrees(cs);
  }

  lemma WritesTaken(cs: seq<Command>, t: nat, row: nat, x: Tuple)
    ensures var turn := if t !in Live(cs) then Unknown else if UnderWay(cs).Some? then Busy else Done;
            && (turn != Done ==> Ask(cs, Insert(t, x)) == Ask(cs, Park(t, row)) == Ask(cs, Delete(t, row)) == turn)
            && (turn == Done ==> Ask(cs, Insert(t, x)).Id?)
            && (turn == Done ==> Ask(cs, Park(t, row)) == Ask(cs, Delete(t, row)) && Ask(cs, Park(t, row)) in {Done, Conflict, NotFound})
    ensures Ask(cs, Install(x)) == if UnderWay(cs).None? then Unknown else Done
    ensures Ask(cs, Read(t, row)).Value? <==> t in Live(cs)
    ensures t !in Live(cs) ==> Ask(cs, Read(t, row)) == Unknown
  {
    hide After, Live, Unsettled, UnderWay, Logged, RowWrites, Apply, Mark, Expected;
    AlwaysAgrees(cs);
  }

  // What is committed ----------------------------------------------------------------------------

  /** What a transaction begun now reads. */
  ghost function Committed(cs: seq<Command>, row: nat): Reply
  {
    var b := Ask(cs, Begin);
    if b.Id? then Ask(cs + [Begin], Read(b.id, row)) else Unknown
  }

  lemma CommittedIs(cs: seq<Command>, row: nat)
    ensures Committed(cs, row) == Value(Get(Latest(After(cs)), row))
  {
    hide After, Apply, Mark, Admit;
    AskIsLast(cs, Begin);
  }

  /** The empty store has no row. */
  lemma NothingCommitted(row: nat)
    ensures Committed([], row) == Value(None)
  {
    CommittedIs([], row);
    assert After([]) == Start();
  }

  lemma {:induction false} InRows(ws: seq<Write>, row: nat)
    ensures Wrote(ws, row) <==> row in Rows(ws)
    decreases |ws|
  {
    if ws != [] {
      var n := |ws| - 1;
      InRows(ws[..n], row);
      assert Rows(ws) == Rows(ws[..n]) + [ws[n].row];
    }
  }

  lemma LoggedIs(cs: seq<Command>, t: nat, row: nat)
    ensures row in Logged(cs, t) <==> Wrote(WritesOf(After(cs), t), row)
  {
    AlwaysAgrees(cs);
    InRows(WritesOf(After(cs), t), row);
  }

  /** A commit publishes what its transaction last wrote and read of each row, and no other row. */
  lemma CommitPublishes(cs: seq<Command>, t: nat, row: nat)
    requires Ask(cs, Commit(t)) == Done
    ensures Committed(cs + [Commit(t)], row) == if row in Logged(cs, t) then Ask(cs, Read(t, row)) else Committed(cs, row)
  {
    hide After, RowWrites, Apply, Mark, Admit, Committed, Logged;
    AskIsLast(cs, Commit(t));
    CommittedIs(cs, row);
    CommittedIs(cs + [Commit(t)], row);
    LoggedIs(cs, t, row);
    var sp := After(cs);
    ApplyGet(Latest(sp), sp.changed, WritesOf(sp, t), |sp.history|, row);
  }

  lemma HistoryStays(sp: Spec, c: Command)
    requires WellFormed(sp) && !(c.Commit? && Step(sp, c).1 == Done)
    ensures Step(sp, c).0.history == sp.history
  {
    hide RowWrites, Apply, Mark, Admit, Expected;
  }

  /** Nothing else changes what is committed. */
  lemma OnlyCommitsPublish(cs: seq<Command>, c: Command, row: nat)
    requires !(c.Commit? && Ask(cs, c) == Done)
    ensures Committed(cs + [c], row) == Committed(cs, row)
  {
    hide After, Step, Committed;
    AskIsLast(cs, c);
    HistoryStays(After(cs), c);
    CommittedIs(cs, row);
    CommittedIs(cs + [c], row);
  }

  // What a transaction reads ---------------------------------------------------------------------

  /** A new statement reads what is committed by now, and the transaction's own writes. */
  lemma RefreshReads(cs: seq<Command>, t: nat, row: nat)
    requires Ask(cs, Refresh(t)) == Done
    ensures Ask(cs + [Refresh(t)], Read(t, row)) == if row in Logged(cs, t) then Ask(cs, Read(t, row)) else Committed(cs, row)
  {
    hide After, RowWrites, Apply, Mark, Admit, Committed, Logged;
    AskIsLast(cs, Refresh(t));
    CommittedIs(cs, row);
    LoggedIs(cs, t, row);
  }

  lemma LastOf(ws: seq<Write>, w: Write, row: nat)
    ensures Wrote(ws + [w], row) <==> Wrote(ws, row) || w.row == row
    ensures w.row == row ==> LastWrite(ws + [w], row) == w.value
    ensures w.row != row && Wrote(ws, row) ==> LastWrite(ws + [w], row) == LastWrite(ws, row)
  {
    assert (ws + [w])[..|ws|] == ws;
  }

  /** An insert is read by its own transaction, which reads all else as before; the row is new to
      everyone. */
  lemma InsertReads(cs: seq<Command>, t: nat, x: Tuple, row: nat)
    requires Ask(cs, Insert(t, x)).Id?
    ensures Ask(cs + [Insert(t, x)], Read(t, row)) == if row == Ask(cs, Insert(t, x)).id then Value(Some(x)) else Ask(cs, Read(t, row))
  {
    hide After, RowWrites, Apply, Mark, Admit, Wrote, LastWrite;
    AskIsLast(cs, Insert(t, x));
    var sp := After(cs);
    LastOf(WritesOf(sp, t), Write(sp.nextRow, Some(x)), row);
  }

  lemma NewRowUnread(sp: Spec, u: nat)
    requires SpecOk(sp) && u in sp.at
    ensures Step(sp, Read(u, sp.nextRow)).1 == Value(None)
  {
    hide RowWrites, LastWrite;
    var row := sp.nextRow;
    assert !Wrote(sp.writes[u], row);
    assert row !in sp.changed;
    assert Get(sp.history[sp.at[u]], row) == Get(Latest(sp), row);
  }

  lemma InsertIsNew(cs: seq<Command>, t: nat, x: Tuple, u: nat)
    requires Ask(cs, Insert(t, x)).Id? && u in Live(cs)
    ensures Ask(cs, Read(u, Ask(cs, Insert(t, x)).id)) == Value(None)
  {
    hide SpecOk, Live, Expected, RunSpec;
    AlwaysAgrees(cs);
    StartOk();
    RunKeepsOk(Start(), cs);
    AfterIs(cs);
    NewRowUnread(After(cs), u);
  }

  lemma AfterIs(cs: seq<Command>)
    ensures WellFormed(Start()) && After(cs) == RunSpec(Start(), cs).0
  {
    StartOk();
  }

  /** A deletion is read by its own transaction, which reads all else as before. */
  lemma DeleteReads(cs: seq<Command>, t: nat, gone: nat, row: nat)
    requires Ask(cs, Delete(t, gone)) == Done
    ensures Ask(cs + [Delete(t, gone)], Read(t, row)) == if row == gone then Value(None) else Ask(cs, Read(t, row))
  {
    hide After, RowWrites, Apply, Mark, Admit, Wrote, LastWrite;
    AskIsLast(cs, Delete(t, gone));
    LastOf(WritesOf(After(cs), t), Write(gone, None), row);
  }

  /** So is an update once it is installed, whatever the others do between its two steps. */
  lemma InstallReads(cs: seq<Command>, x: Tuple, row: nat)
    requires UnderWay(cs).Some?
    ensures var t := UnderWay(cs).value.0;
            Ask(cs + [Install(x)], Read(t, row)) == if row == UnderWay(cs).value.1 then Value(Some(x)) else Ask(cs, Read(t, row))
  {
    hide After, RowWrites, Apply, Mark, Admit, Wrote, LastWrite, UnderWay;
    AlwaysAgrees(cs);
    AskIsLast(cs, Install(x));
    var sp := After(cs);
    LastOf(WritesOf(sp, sp.latch.value.0), Write(sp.latch.value.1, Some(x)), row);
  }

  lemma {:induction false} UpdateStaysUnderWay(cs: seq<Command>, t: nat, row: nat, ds: seq<Command>)
    requires Ask(cs, Park(t, row)) == Done
    requires forall i {:trigger ds[i]} :: 0 <= i < |ds| ==> !ds[i].Install?
    ensures UnderWay(cs + [Park(t, row)] + ds) == Some((t, row))
    decreases |ds|
  {
    hide Live, Unsettled, Logged, Ask;
    if ds == [] {
      LiveNext(cs, Park(t, row));
      assert cs + [Park(t, row)] + ds == cs + [Park(t, row)];
    } else {
      var n := |ds| - 1;
      var before := cs + [Park(t, row)] + ds[..n];
      UpdateStaysUnderWay(cs, t, row, ds[..n]);
      LiveNext(before, ds[n]);
      assert before + [ds[n]] == cs + [Park(t, row)] + ds;
      BusyWhile(before, ds[n]);
    }
  }

  lemma BusyWhile(cs: seq<Command>, c: Command)
    requires UnderWay(cs).Some?
    ensures c.Park? ==> Ask(cs, c) != Done
  {
    hide After, Live, Unsettled, Logged, UnderWay;
    AlwaysAgrees(cs);
  }

  /** The command writes a row for `t`. */
  ghost predicate WritesFor(cs: seq<Command>, c: Command, t: nat) {
    || (c.Insert? && c.txn == t && Ask(cs, c).Id?)
    || (c.Delete? && c.txn == t && Ask(cs, c) == Done)
    || (c.Install? && UnderWay(cs).Some? && UnderWay(cs).value.0 == t)
  }

  lemma WriteAppends(sp: Spec, c: Command, t: nat)
    requires WellFormed(sp) && t in sp.at
    requires (c.Insert? && c.txn == t && Step(sp, c).1.Id?) || (c.Delete? && c.txn == t && Step(sp, c).1 == Done)
          || (c.Install? && sp.latch.Some? && sp.latch.value.0 == t)
    ensures var sp2 := Step(sp, c).0;
            && t in sp2.at && sp2.at[t] == sp.at[t] && sp2.history == sp.history && sp2.latch.None?
            && t in sp2.writes && |sp2.writes[t]| == |sp.writes[t]| + 1 && sp2.writes[t][..|sp.writes[t]|] == sp.writes[t]
  {
    hide RowWrites, Apply, Mark, Admit, Expected;
  }

  lemma SameReads(sp: Spec, sp2: Spec, t: nat, row: nat)
    requires WellFormed(sp) && WellFormed(sp2) && t in sp.at && t in sp2.at
    requires sp2.at[t] == sp.at[t] && sp2.history == sp.history && t in sp.writes && t in sp2.writes && sp2.writes[t] == sp.writes[t]
    ensures Step(sp2, Read(t, row)).1 == Step(sp, Read(t, row)).1
  {
  }

  lemma BackFrom(sp: Spec, t: nat)
    requires WellFormed(sp) && t in sp.at && sp.latch.None? && sp.writes[t] != []
    ensures var sp2 := Step(sp, StepBack(t)).0;
            && Step(sp, StepBack(t)).1 == Done && t in sp2.at && sp2.at[t] == sp.at[t] && sp2.history == sp.history
            && t in sp2.writes && sp2.writes[t] == sp.writes[t][..|sp.writes[t]| - 1]
  {
  }

  /** Taking the newest write back takes back what it changed, and nothing else. */
  lemma StepBackReads(cs: seq<Command>, c: Command, t: nat, row: nat)
    requires t in Live(cs) && WritesFor(cs, c, t)
    ensures Ask(cs + [c], StepBack(t)) == Done
    ensures Ask(cs + [c] + [StepBack(t)], Read(t, row)) == Ask(cs, Read(t, row))
  {
    hide After, Step, Live, UnderWay, Logged, Unsettled;
    AlwaysAgrees(cs);
    AskIsLast(cs, c);
    AskIsLast(cs + [c], StepBack(t));
    WriteAppends(After(cs), c, t);
    BackFrom(After(cs + [c]), t);
    SameReads(After(cs), After(cs + [c] + [StepBack(t)]), t, row);
  }

  lemma ReadStays(sp: Spec, c: Command, t: nat)
    requires WellFormed(sp) && t in sp.at && t in Step(sp, c).0.at && t < sp.nextTxn
    requires c != Refresh(t) && c != StepBack(t) && !(c.Insert? && c.txn == t) && !(c.Delete? && c.txn == t)
    requires !(c.Install? && sp.latch.Some? && sp.latch.value.0 == t)
    ensures var sp2 := Step(sp, c).0;
            sp2.at[t] == sp.at[t] && WritesOf(sp2, t) == WritesOf(sp, t) && sp.history <= sp2.history
  {
    hide RowWrites, Apply, Mark, Admit, Expected;
  }

  lemma ReadFrom(sp: Spec, sp2: Spec, t: nat, row: nat)
    requires WellFormed(sp) && WellFormed(sp2) && t in sp.at && t in sp2.at
    requires sp2.at[t] == sp.at[t] && WritesOf(sp2, t) == WritesOf(sp, t) && sp.history <= sp2.history
    ensures Step(sp2, Read(t, row)).1 == Step(sp, Read(t, row)).1
  {
  }

  /** No other command changes what a transaction reads: not those of the others, and of its own only
      a new statement, an insert, a deletion, an installed update and taking a write back. */
  lemma OthersReadOn(cs: seq<Command>, c: Command, t: nat, row: nat)
    requires t in Live(cs) && t in Live(cs + [c])
    requires c != Refresh(t) && c != StepBack(t) && !(c.Insert? && c.txn == t) && !(c.Delete? && c.txn == t)
    requires !(c.Install? && UnderWay(cs).Some? && UnderWay(cs).value.0 == t)
    ensures Ask(cs + [c], Read(t, row)) == Ask(cs, Read(t, row))
  {
    hide After, Step, Live, UnderWay, Logged, Unsettled, WellFormed;
    AlwaysAgrees(cs);
    AlwaysAgrees(cs + [c]);
    AskIsLast(cs, c);
    AtIsBegun(After(cs));
    ReadStays(After(cs), c, t);
    ReadFrom(After(cs), After(cs + [c]), t, row);
  }

  lemma AtIsBegun(sp: Spec)
    requires WellFormed(sp)
    ensures sp.at.Keys <= sp.writes.Keys
  {
  }

  // Who may write --------------------------------------------------------------------------------

  /** How many commands had been given when `t` last took a snapshot. */
  ghost function SnapshotTaken(cs: seq<Command>, t: nat): (n: nat)
    ensures n <= |cs|
  {
    if cs == [] then 0
    else
      var before, c := cs[..|cs| - 1], cs[|cs| - 1];
      if (c.Begin? && Ask(before, c) == Id(t)) || (c == Refresh(t) && Ask(before, c) == Done) then |cs|
      else SnapshotTaken(before, t)
  }

  /** Command `i` committed a write of `row`. */
  ghost predicate CommitsRow(cs: seq<Command>, i: nat, row: nat) {
    i < |cs| && cs[i].Commit? && Ask(cs[..i], cs[i]) == Done && row in Logged(cs[..i], cs[i].txn)
  }

  /** Somebody committed a write of `row` after `t` took its snapshot. */
  ghost predicate ChangedSince(cs: seq<Command>, t: nat, row: nat) {
    exists i: nat :: SnapshotTaken(cs, t) <= i && CommitsRow(cs, i, row)
  }

  /** Somebody else has a write of `row` that is neither committed nor taken back. */
  ghost predicate HeldByOther(cs: seq<Command>, t: nat, row: nat) {
    exists u :: u in Unsettled(cs) && u != t && row in Logged(cs, u)
  }

  lemma CommitsRowKept(cs: seq<Command>, c: Command, i: nat, row: nat)
    requires i < |cs|
    ensures CommitsRow(cs + [c], i, row) <==> CommitsRow(cs, i, row)
  {
    assert (cs + [c])[..i] == cs[..i] && (cs + [c])[i] == cs[i];
  }

  lemma SnapshotNext(cs: seq<Command>, c: Command, t: nat)
    ensures SnapshotTaken(cs + [c], t) ==
            if (c.Begin? && Ask(cs, c) == Id(t)) || (c == Refresh(t) && Ask(cs, c) == Done) then |cs| + 1 else SnapshotTaken(cs, t)
  {
    hide Ask;
    assert (cs + [c])[..|cs|] == cs && (cs + [c])[|cs|] == c;
  }

  lemma ChangedNext(cs: seq<Command>, c: Command, t: nat, row: nat)
    ensures ChangedSince(cs + [c], t, row) <==>
              && !((c.Begin? && Ask(cs, c) == Id(t)) || (c == Refresh(t) && Ask(cs, c) == Done))
              && (ChangedSince(cs, t, row) || (c.Commit? && Ask(cs, c) == Done && row in Logged(cs, c.txn)))
  {
    hide Ask, Logged, SnapshotTaken;
    var all, n := cs + [c], |cs|;
    SnapshotNext(cs, c, t);
    assert all[..n] == cs && all[n] == c;
    assert CommitsRow(all, n, row) <==> c.Commit? && Ask(cs, c) == Done && row in Logged(cs, c.txn);
    if ChangedSince(cs, t, row) {
      var i: nat :| SnapshotTaken(cs, t) <= i && CommitsRow(cs, i, row);
      CommitsRowKept(cs, c, i, row);
    }
    if ChangedSince(all, t, row) {
      var i: nat :| SnapshotTaken(all, t) <= i && CommitsRow(all, i, row);
      if i < n { CommitsRowKept(cs, c, i, row); }
    }
  }

  /** The commit numbers the machine keeps tell the same. */
  ghost predicate Newer(sp: Spec, t: nat, row: nat) { t in sp.at && row in sp.changed && sp.changed[row] > sp.at[t] }

  lemma NewerStep(sp: Spec, c: Command, t: nat, row: nat)
    requires WellFormed(sp) && t in Step(sp, c).0.at
    ensures Newer(Step(sp, c).0, t, row) <==>
              && !((c.Begin? && Step(sp, c).1 == Id(t)) || (c == Refresh(t) && Step(sp, c).1 == Done))
              && (Newer(sp, t, row) || (c.Commit? && Step(sp, c).1 == Done && Wrote(WritesOf(sp, c.txn), row)))
  {
    hide RowWrites, Apply, Mark, Admit, Expected, Wrote;
    if c.Commit? { ApplyGet(Latest(sp), sp.changed, WritesOf(sp, c.txn), |sp.history|, row); }
  }

  lemma {:induction false} NewerIs(cs: seq<Command>, t: nat, row: nat)
    requires t in Live(cs)
    ensures Newer(After(cs), t, row) <==> ChangedSince(cs, t, row)
    decreases |cs|
  {
    hide Logged, Step, Wrote, ChangedSince, UnderWay, Unsettled, WellFormed;
    if cs == [] {
      assert false;
    } else {
      var n := |cs| - 1;
      var before, c := cs[..n], cs[n];
      assert cs == before + [c];
      AskIsLast(before, c);
      ChangedNext(before, c, t, row);
      if c.Commit? { LoggedIs(before, c.txn, row); }
      AlwaysAgrees(cs);
      NewerStep(After(before), c, t, row);
      if t in Live(before) { NewerIs(before, t, row); }
    }
  }

  lemma AdmitIs(sp: Spec, t: nat, row: nat)
    requires SpecOk(sp) && t in sp.at
    ensures var a, seen := Admit(sp, t, row), Expected(sp, t, sp.at[t], row);
            var conflict := WrittenByOther(sp, t, row) || (!Wrote(WritesOf(sp, t), row) && Newer(sp, t, row));
            a == if conflict then Conflict else if seen.Some? then Done else NotFound
  {
    hide RowWrites, LastWrite;
    if !Wrote(sp.writes[t], row) && !Newer(sp, t, row) {
      assert Get(sp.history[sp.at[t]], row) == Get(Latest(sp), row);
    }
  }

  lemma HeldIs(cs: seq<Command>, t: nat, row: nat)
    ensures HeldByOther(cs, t, row) <==> WrittenByOther(After(cs), t, row)
  {
    hide After, Live, UnderWay, Unsettled, Logged, Wrote, WellFormed;
    AlwaysAgrees(cs);
    var sp := After(cs);
    if HeldByOther(cs, t, row) {
      var u :| u in Unsettled(cs) && u != t && row in Logged(cs, u);
      LoggedIs(cs, u, row);
    }
    if WrittenByOther(sp, t, row) {
      var u: nat :| u in sp.writes && u != t && Wrote(sp.writes[u], row);
      LoggedIs(cs, u, row);
    }
  }

  lemma AsksAdmit(cs: seq<Command>, t: nat, row: nat)
    requires t in Live(cs) && UnderWay(cs).None?
    ensures t in After(cs).at && t in After(cs).writes
    ensures Ask(cs, Park(t, row)) == Ask(cs, Delete(t, row)) == Admit(After(cs), t, row)
    ensures Ask(cs, Read(t, row)) == Value(Expected(After(cs), t, After(cs).at[t], row))
  {
    hide After, Live, UnderWay, Unsettled, Logged, Expected;
    AlwaysAgrees(cs);
  }

  /** First updater wins, without waiting: a write is refused exactly when somebody else holds the row,
      or when somebody committed a write of it after the writer took its snapshot and the writer has
      not written it itself. Otherwise it is taken exactly when the writer reads a value there. */
  lemma ConflictIff(cs: seq<Command>, t: nat, row: nat)
    requires t in Live(cs) && UnderWay(cs).None?
    ensures var answer := Ask(cs, Park(t, row));
            && answer == Ask(cs, Delete(t, row))
            && (answer == Conflict <==> HeldByOther(cs, t, row) || (row !in Logged(cs, t) && ChangedSince(cs, t, row)))
            && (answer == NotFound <==> answer != Conflict && Ask(cs, Read(t, row)) == Value(None))
            && (answer == Done <==> answer != Conflict && Ask(cs, Read(t, row)) != Value(None))
  {
    hide After, Ask, Live, UnderWay, Unsettled, Logged, Expected, Admit, SpecOk, ChangedSince, HeldByOther, WrittenByOther, Newer, Wrote;
    AsksAdmit(cs, t, row);
    StartOk();
    RunKeepsOk(Start(), cs);
    AfterIs(cs);
    AdmitIs(After(cs), t, row);
    HeldIs(cs, t, row);
    LoggedIs(cs, t, row);
    NewerIs(cs, t, row);
  }

  // Scans and ends -------------------------------------------------------------------------------

  /** The command ends the scan `k` of `t`: it is closed, or `t` ends, takes back, updates or deletes. */
  predicate EndsScan(c: Command, t: nat, k: nat) {
    || c == CloseScan(k)
    || (c.Commit? && c.txn == t) || (c.Abort? && c.txn == t) || (c.StepBack? && c.txn == t)
    || (c.Park? && c.txn == t) || (c.Delete? && c.txn == t)
  }

  ghost predicate Scanning(sp: Spec, k: nat, scan: Cursor) { k in sp.cursors && sp.cursors[k] == scan && k < sp.nextScan }

  ghost predicate ScanOver(sp: Spec, k: nat) { k !in sp.cursors && k < sp.nextScan }

  lemma ScanStep(sp: Spec, c: Command, k: nat, scan: Cursor)
    requires WellFormed(sp)
    ensures Scanning(sp, k, scan) ==> Scanning(Step(sp, c).0, k, scan) || ScanOver(Step(sp, c).0, k)
    ensures Scanning(sp, k, scan) && !EndsScan(c, scan.txn, k) ==> Scanning(Step(sp, c).0, k, scan)
    ensures ScanOver(sp, k) ==> ScanOver(Step(sp, c).0, k)
  {
    hide RowWrites, Apply, Mark, Admit, Expected;
  }

  lemma {:induction false} ScanRun(cs: seq<Command>, ds: seq<Command>, k: nat, scan: Cursor)
    requires Scanning(After(cs), k, scan)
    ensures Scanning(After(cs + ds), k, scan) || ScanOver(After(cs + ds), k)
    ensures (forall i {:trigger ds[i]} :: 0 <= i < |ds| ==> !EndsScan(ds[i], scan.txn, k)) ==> Scanning(After(cs + ds), k, scan)
    decreases |ds|
  {
    hide After, Step, WellFormed, EndsScan, Scanning, ScanOver;
    if ds == [] {
      assert cs + ds == cs;
    } else {
      var n := |ds| - 1;
      ScanRun(cs, ds[..n], k, scan);
      AskIsLast(cs + ds[..n], ds[n]);
      assert cs + ds[..n] + [ds[n]] == cs + ds;
      ScanStep(After(cs + ds[..n]), ds[n], k, scan);
    }
  }

  lemma ScanOpens(cs: seq<Command>, t: nat, row: nat)
    requires Ask(cs, OpenScan(t)).Id?
    ensures var k, sp := Ask(cs, OpenScan(t)).id, After(cs + [OpenScan(t)]);
            && k in sp.cursors && Scanning(sp, k, sp.cursors[k]) && sp.cursors[k].txn == t
            && Value(Get(sp.cursors[k].content, row)) == Ask(cs, Read(t, row))
  {
    hide After, RowWrites, Apply, Mark, Admit;
    AskIsLast(cs, OpenScan(t));
    var sp := After(cs);
    ApplyGet(BaseOf(sp, t), sp.changed, WritesOf(sp, t), 0, row);
  }

  lemma ScanAnswers(sp: Spec, k: nat, scan: Cursor, row: nat)
    requires WellFormed(sp)
    ensures Scanning(sp, k, scan) ==> Step(sp, ReadScan(k, row)).1 == Value(Get(scan.content, row))
    ensures ScanOver(sp, k) ==> Step(sp, ReadScan(k, row)).1 == Unknown
  {
  }

  /** A scan reads what its transaction read when it was opened, however late and whatever was done
      meanwhile, until it ends. */
  lemma ScanReads(cs: seq<Command>, t: nat, ds: seq<Command>, row: nat)
    requires Ask(cs, OpenScan(t)).Id?
    ensures var k, now := Ask(cs, OpenScan(t)).id, cs + [OpenScan(t)] + ds;
            && Ask(now, ReadScan(k, row)) in {Unknown, Ask(cs, Read(t, row))}
            && ((forall i {:trigger ds[i]} :: 0 <= i < |ds| ==> !EndsScan(ds[i], t, k)) ==>
                  Ask(now, ReadScan(k, row)) == Ask(cs, Read(t, row)))
  {
    hide After, Step, WellFormed, EndsScan, Scanning, ScanOver;
    ScanOpens(cs, t, row);
    var open, k := cs + [OpenScan(t)], Ask(cs, OpenScan(t)).id;
    var scan := After(open).cursors[k];
    ScanRun(open, ds, k, scan);
    ScanAnswers(After(open + ds), k, scan, row);
  }

  lemma EndedStep(sp: Spec, c: Command, t: nat)
    requires WellFormed(sp) && t !in sp.at && t < sp.nextTxn
    ensures t !in Step(sp, c).0.at && t < Step(sp, c).0.nextTxn
  {
    hide RowWrites, Apply, Mark, Admit, Expected;
  }

  lemma {:induction false} EndedRun(cs: seq<Command>, ds: seq<Command>, t: nat)
    requires t !in After(cs).at && t < After(cs).nextTxn
    ensures t !in After(cs + ds).at && t < After(cs + ds).nextTxn
    decreases |ds|
  {
    hide After, Step, WellFormed;
    if ds == [] {
      assert cs + ds == cs;
    } else {
      var n := |ds| - 1;
      EndedRun(cs, ds[..n], t);
      AskIsLast(cs + ds[..n], ds[n]);
      assert cs + ds[..n] + [ds[n]] == cs + ds;
      EndedStep(After(cs + ds[..n]), ds[n], t);
    }
  }

  /** A transaction that has ended stays ended: its id is never handed out again. */
  lemma EndedForGood(cs: seq<Command>, c: Command, ds: seq<Command>, row: nat)
    requires (c.Commit? || c.Abort?) && Ask(cs, c) == Done
    ensures Ask(cs + [c] + ds, Read(c.txn, row)) == Unknown && Ask(cs + [c] + ds, Begin) != Id(c.txn)
  {
    hide After, Live, UnderWay, Unsettled, Logged, Apply, Mark;
    AlwaysAgrees(cs);
    AskIsLast(cs, c);
    EndedRun(cs + [c], ds, c.txn);
  }
}
