/** What the reference machine promises over whole runs: nobody's update is lost, and a snapshot
    stays what it was. */
module SnapshotLaws {
  import opened Bytes
  import opened VersionChain
  import opened SnapshotSpec

  ghost function Start(): Spec { Spec([map[]], map[], 1, 0, 0, map[], map[], map[], None) }

  /** The machine after some commands, and its answers. */
  ghost function RunSpec(sp: Spec, cs: seq<Command>): (r: (Spec, seq<Reply>))
    requires WellFormed(sp)
    ensures WellFormed(r.0) && |r.1| == |cs|
    decreases |cs|
  {
    if cs == [] then (sp, [])
    else
      var before := RunSpec(sp, cs[..|cs| - 1]);
      var last := Step(before.0, cs[|cs| - 1]);
      StepWellFormed(before.0, cs[|cs| - 1]);
      (last.0, before.1 + [last.1])
  }

  /** Transaction `t` may write `row`: it is alone, and has seen the row's last change. */
  ghost predicate Sole(sp: Spec, t: nat, row: nat) {
    && (forall other {:trigger sp.writes[other]} :: other in sp.writes && other != t ==> !Wrote(sp.writes[other], row))
    && (t in sp.at && row in sp.changed ==> sp.changed[row] <= sp.at[t])
  }

  /** The first to write a row keeps everyone else off it. */
  ghost predicate FirstWins(sp: Spec) {
    && (forall t, row: nat {:trigger Wrote(sp.writes[t], row)} :: t in sp.writes && Wrote(sp.writes[t], row) ==> Sole(sp, t, row))
    && (sp.latch.Some? ==> Sole(sp, sp.latch.value.0, sp.latch.value.1))
    && (forall t, row: nat {:trigger Wrote(sp.writes[t], row)} :: t in sp.writes && Wrote(sp.writes[t], row) ==> row < sp.nextRow)
    && (forall row {:trigger sp.changed[row]} :: row in sp.changed ==> row < sp.nextRow)
    && (sp.latch.Some? ==> sp.latch.value.1 < sp.nextRow)
  }

  /** A row changes only at the commits that say so. */
  ghost predicate ChangeTimes(sp: Spec) {
    && (forall at: nat, row: nat {:trigger Get(sp.history[at], row)} ::
          at < |sp.history| && (row in sp.changed ==> sp.changed[row] <= at) ==> Get(sp.history[at], row) == Get(Latest(sp), row))
    && (forall row: nat {:trigger row in Latest(sp)} :: row in Latest(sp) ==> row < sp.nextRow)
  }

  ghost predicate SpecOk(sp: Spec) { WellFormed(sp) && FirstWins(sp) && ChangeTimes(sp) }

  lemma StartOk()
    ensures SpecOk(Start())
  {
  }

  lemma WroteAppend(ws: seq<Write>, w: Write, row: nat)
    ensures Wrote(ws + [w], row) <==> Wrote(ws, row) || w.row == row
  {
    assert (ws + [w])[..|ws|] == ws;
  }

  /** A write by a transaction that may write the row. */
  lemma AppendKeeps(sp: Spec, t: nat, w: Write, nextRow: nat)
    requires SpecOk(sp) && t in sp.writes && Sole(sp, t, w.row) && w.row < nextRow && sp.nextRow <= nextRow
    requires sp.latch.Some? ==> sp.latch.value == (t, w.row)
    ensures SpecOk(Append(sp, t, w).(latch := None, nextRow := nextRow))
  {
    hide RowWrites, Wrote, Apply, Mark;
    var sp' := Append(sp, t, w).(latch := None, nextRow := nextRow);
    assert Latest(sp') == Latest(sp);
    forall x, row: nat | x in sp'.writes
      ensures Wrote(sp'.writes[x], row) <==> Wrote(sp.writes[x], row) || (x == t && row == w.row)
    {
      WroteAppend(sp.writes[t], w, row);
    }
    forall x, row: nat | x in sp'.writes && Wrote(sp'.writes[x], row) ensures Sole(sp', x, row) {
      assert Sole(sp, x, row);
    }
  }

  lemma {:induction false} PrefixWrote(ws: seq<Write>, row: nat)
    requires ws != [] && Wrote(ws[..|ws| - 1], row)
    ensures Wrote(ws, row)
  {
  }

  lemma BackKeepsOk(sp: Spec, t: nat)
    requires SpecOk(sp) && t in sp.writes && sp.latch.None?
    ensures SpecOk(StepsBack(Closes(sp, t), t))
  {
    hide RowWrites, Wrote, Apply, Mark;
    var sp' := StepsBack(Closes(sp, t), t);
    assert Latest(sp') == Latest(sp);
    forall x, row: nat | x in sp'.writes && Wrote(sp'.writes[x], row) ensures Wrote(sp.writes[x], row) {
      if x == t && sp.writes[t] != [] { PrefixWrote(sp.writes[t], row); }
    }
    forall x, row: nat | x in sp'.writes && Wrote(sp'.writes[x], row) ensures Sole(sp', x, row) {
      assert Sole(sp, x, row);
    }
  }

  /** An admitted writer is alone and has seen the row's last change. */
  lemma AdmittedSole(sp: Spec, t: nat, row: nat)
    requires SpecOk(sp) && t in sp.at && Admit(sp, t, row) == Done
    ensures Sole(sp, t, row) && row < sp.nextRow
  {
    hide RowWrites, Wrote, Apply, Mark;
    assert Wrote(sp.writes[t], row) ==> Sole(sp, t, row);
  }

  /** What a commit does to one row. */
  lemma CommitRow(sp: Spec, t: nat, row: nat)
    requires WellFormed(sp) && t in sp.at
    ensures var sp' := Commits(sp, t);
            if Wrote(sp.writes[t], row) then row in sp'.changed && sp'.changed[row] == |sp.history|
            else
              && Get(Latest(sp'), row) == Get(Latest(sp), row)
              && (row in sp'.changed <==> row in sp.changed)
              && (row in sp.changed ==> sp'.changed[row] == sp.changed[row])
  {
    hide RowWrites, Wrote;
    ApplyGet(Latest(sp), sp.changed, sp.writes[t], |sp.history|, row);
  }

  lemma CommitFirst(sp: Spec, t: nat)
    requires SpecOk(sp) && t in sp.at && Idle(sp, t)
    ensures FirstWins(Commits(sp, t))
  {
    hide RowWrites, Wrote, Apply, Mark;
    var sp', ws := Commits(sp, t), sp.writes[t];
    forall x, row: nat | x in sp'.writes && Wrote(sp'.writes[x], row) ensures Sole(sp', x, row) {
      assert Sole(sp, x, row);
      CommitRow(sp, t, row);
    }
    if sp.latch.Some? { CommitRow(sp, t, sp.latch.value.1); }
    forall row | row in sp'.changed ensures row < sp'.nextRow { CommitRow(sp, t, row); }
  }

  lemma CommitChanges(sp: Spec, t: nat)
    requires SpecOk(sp) && t in sp.at
    ensures ChangeTimes(Commits(sp, t))
  {
    hide RowWrites, Wrote, Mark, Apply;
    var sp' := Commits(sp, t);
    assert Latest(sp') == sp'.history[|sp.history|];
    forall at: nat, row: nat | at < |sp'.history| && (row in sp'.changed ==> sp'.changed[row] <= at)
      ensures Get(sp'.history[at], row) == Get(Latest(sp'), row)
    {
      CommitRow(sp, t, row);
      if at < |sp.history| { assert Get(sp.history[at], row) == Get(Latest(sp), row); }
    }
    forall row: nat | row in Latest(sp') ensures row < sp'.nextRow {
      CommitRow(sp, t, row);
      assert row in Latest(sp) || Wrote(sp.writes[t], row);
    }
  }

  lemma CloseKeepsOk(sp: Spec, t: nat)
    requires SpecOk(sp)
    ensures SpecOk(Closes(sp, t))
  {
    hide Wrote, Apply;
    assert Latest(Closes(sp, t)) == Latest(sp);
    assert forall x, row: nat {:trigger Sole(sp, x, row)} :: Sole(sp, x, row) ==> Sole(Closes(sp, t), x, row);
  }

  lemma InsertKeepsOk(sp: Spec, t: nat, tuple: Tuple)
    requires SpecOk(sp) && t in sp.at && sp.latch.None?
    ensures SpecOk(Append(sp, t, Write(sp.nextRow, Some(tuple))).(nextRow := sp.nextRow + 1))
  {
    hide Wrote, RowWrites;
    assert Sole(sp, t, sp.nextRow);
    AppendKeeps(sp, t, Write(sp.nextRow, Some(tuple)), sp.nextRow + 1);
  }

  lemma ParkKeepsOk(sp: Spec, t: nat, row: nat)
    requires SpecOk(sp) && t in sp.at && Sole(sp, t, row) && row < sp.nextRow
    ensures SpecOk(Closes(sp, t).(latch := Some((t, row))))
  {
    hide Wrote, Apply;
    var sp' := Closes(sp, t).(latch := Some((t, row)));
    assert Latest(sp') == Latest(sp);
    assert forall x, row: nat {:trigger Sole(sp, x, row)} :: Sole(sp, x, row) ==> Sole(sp', x, row);
  }

  /** Steps that write nothing and commit nothing: logs only appear empty or disappear, and views
      only move forward. */
  ghost predicate Harmless(sp: Spec, sp': Spec) {
    && sp'.history == sp.history && sp'.changed == sp.changed && sp'.latch == sp.latch && sp'.nextRow == sp.nextRow
    && (forall t {:trigger sp'.writes[t]} :: t in sp'.writes ==> sp'.writes[t] == [] || (t in sp.writes && sp'.writes[t] == sp.writes[t]))
    && (forall t {:trigger sp'.at[t]} :: t in sp'.at ==> sp'.at[t] == Clock(sp) || (t in sp.at && sp'.at[t] == sp.at[t]))
  }

  lemma HarmlessKeepsOk(sp: Spec, sp': Spec)
    requires SpecOk(sp) && WellFormed(sp') && Harmless(sp, sp')
    ensures SpecOk(sp')
  {
    hide RowWrites;
    assert Latest(sp') == Latest(sp);
    NothingWritten();
    forall x, row: nat | Sole(sp, x, row) ensures Sole(sp', x, row) {}
    forall x, row: nat | x in sp'.writes && Wrote(sp'.writes[x], row) ensures Sole(sp', x, row) && row < sp'.nextRow {
      assert Wrote(sp.writes[x], row);
      assert Sole(sp, x, row);
    }
  }

  lemma EasyHarmless(sp: Spec, c: Command)
    requires WellFormed(sp)
    requires c.Begin? || c.Refresh? || c.Abort? || c.Finish? || c.Read? || c.OpenScan? || c.ReadScan? || c.CloseScan?
             || c.PurgeSnapshot? || c.PurgeRow? || c.PurgeOrphans?
    ensures Harmless(sp, Step(sp, c).0)
  {
    hide RowWrites, Apply, Mark, Admit, Expected;
  }

  lemma NothingWritten()
    ensures forall row: nat {:trigger RowWrites([], row)} :: RowWrites([], row) == []
  {
  }

  /** Every step keeps the first writer of a row alone on it, whatever the others try. */
  lemma StepKeepsOk(sp: Spec, c: Command)
    requires SpecOk(sp)
    ensures SpecOk(Step(sp, c).0)
  {
    hide RowWrites, Wrote, Apply, Mark, Admit;
    StepWellFormed(sp, c);
    match c
    case Commit(t) =>
      if t in sp.at && Idle(sp, t) {
        CloseKeepsOk(sp, t);
        CommitFirst(Closes(sp, t), t);
        CommitChanges(Closes(sp, t), t);
      }
    case StepBack(t) => if t in sp.writes && sp.latch.None? { BackKeepsOk(sp, t); }
    case Insert(t, tuple) => if t in sp.at && sp.latch.None? { InsertKeepsOk(sp, t, tuple); }
    case Delete(t, row) =>
      if t in sp.at && sp.latch.None? {
        CloseKeepsOk(sp, t);
        if Admit(sp, t, row) == Done {
          AdmittedSole(sp, t, row);
          AppendKeeps(Closes(sp, t), t, Write(row, None), sp.nextRow);
        }
      }
    case Install(tuple) =>
      if sp.latch.Some? {
        AppendKeeps(sp, sp.latch.value.0, Write(sp.latch.value.1, Some(tuple)), sp.nextRow);
      }
    case Park(t, row) =>
      if t in sp.at && sp.latch.None? {
        CloseKeepsOk(sp, t);
        if Admit(sp, t, row) == Done { AdmittedSole(sp, t, row); ParkKeepsOk(sp, t, row); }
      }
    case _ =>
      EasyHarmless(sp, c);
      HarmlessKeepsOk(sp, Step(sp, c).0);
  }

  lemma {:induction false} RunKeepsOk(sp: Spec, cs: seq<Command>)
    requires SpecOk(sp)
    ensures SpecOk(RunSpec(sp, cs).0)
    decreases |cs|
  {
    if cs != [] {
      RunKeepsOk(sp, cs[..|cs| - 1]);
      StepKeepsOk(RunSpec(sp, cs[..|cs| - 1]).0, cs[|cs| - 1]);
    }
  }

  /** No lost update, in any run: while a transaction has a write on a row, the row it read is
      still the latest committed one, and nobody else has written it. */
  lemma {:induction false} NoLostUpdate(cs: seq<Command>, t: nat, row: nat)
    requires var sp := RunSpec(Start(), cs).0; t in sp.at && t in sp.writes && Wrote(sp.writes[t], row)
    ensures var sp := RunSpec(Start(), cs).0;
            && sp.at[t] < |sp.history|
            && Get(sp.history[sp.at[t]], row) == Get(Latest(sp), row)
            && !WrittenByOther(sp, t, row)
  {
    hide RowWrites, RunSpec;
    StartOk();
    RunKeepsOk(Start(), cs);
    var sp := RunSpec(Start(), cs).0;
    assert Sole(sp, t, row);
  }

  /** The commands that may move what `t` reads. */
  predicate Moves(c: Command, t: nat) {
    match c
    case Refresh(x) => x == t
    case Commit(x) => x == t
    case Abort(x) => x == t
    case StepBack(x) => x == t
    case Finish(x) => x == t
    case Insert(x, _) => x == t
    case Park(x, _) => x == t
    case Delete(x, _) => x == t
    case _ => false
  }

  /** From `sp` to `sp'` nothing moved for the running transaction `t`. */
  ghost predicate Unmoved(sp: Spec, sp': Spec, t: nat) {
    && Running(sp', t)
    && t in sp.at && t in sp.writes && sp'.at[t] == sp.at[t] && sp'.writes[t] == sp.writes[t]
    && sp.history <= sp'.history
  }

  ghost predicate Running(sp: Spec, t: nat) {
    WellFormed(sp) && t in sp.at && t in sp.writes && t < sp.nextTxn && Idle(sp, t)
  }

  lemma OthersMoveNothing(sp: Spec, c: Command, t: nat)
    requires Running(sp, t) && !Moves(c, t)
    ensures Unmoved(sp, Step(sp, c).0, t)
  {
    hide RowWrites, Apply, Mark, Admit, Expected;
    StepWellFormed(sp, c);
  }

  lemma UnmovedReads(sp: Spec, sp': Spec, t: nat, row: nat)
    requires Running(sp, t) && Unmoved(sp, sp', t)
    ensures Step(sp', Read(t, row)).1 == Step(sp, Read(t, row)).1
  {
    hide RowWrites, Apply, Mark, Admit;
  }

  /** A snapshot stays what it was: whatever the others do in between, begin, commit, roll back or
      purge, a transaction reads the same value of every row until it moves itself. */
  lemma {:induction false} SnapshotIsStable(sp: Spec, cs: seq<Command>, t: nat, row: nat)
    requires Running(sp, t)
    requires forall i {:trigger cs[i]} :: 0 <= i < |cs| ==> !Moves(cs[i], t)
    ensures Unmoved(sp, RunSpec(sp, cs).0, t)
    ensures Step(RunSpec(sp, cs).0, Read(t, row)).1 == Step(sp, Read(t, row)).1
    decreases |cs|
  {
    hide RowWrites, Step, WellFormed;
    if cs != [] {
      var n := |cs| - 1;
      SnapshotIsStable(sp, cs[..n], t, row);
      OthersMoveNothing(RunSpec(sp, cs[..n]).0, cs[n], t);
    }
    UnmovedReads(sp, RunSpec(sp, cs).0, t, row);
  }
}
