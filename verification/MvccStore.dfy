/** The versioned row store: one table's rows in their leaves, older versions in the undo arena,
    running transactions with their views and undo logs, open scans and purge passes. Methods are
    the steps that run under one latch; any interleaving of them is a run. */
module MvccStore {
  import opened Bytes
  import opened VersionChain
  import opened SnapshotSpec
  import opened SnapshotLaws
  import opened MvccInvariant
  import opened MvccHistory
  import opened MvccSteps
  import opened MvccCommit
  import opened MvccReads
  import opened MvccWrites
  import opened MvccPurge
  import opened MvccRefine

  /** Gives back a chain of arena slots, newest first, and counts them. */
  method FreeChain(arena: Arena, free: seq<nat>, first: nat, ghost use: map<nat, Use>, ghost row: nat, ghost h: seq<Version>)
    returns (arena': Arena, free': seq<nat>, freed: nat)
    requires Linked(arena, use, row, h) && h[0].meta.undo == first
    ensures arena' == Freed(arena, h) && free' == free + Slots(h) && freed == |h| - 1
  {
    arena', free', freed := arena, free, 0;
    var idx := first;
    ghost var left := h;
    while idx != NO_UNDO && idx < |arena'| && arena'[idx].Some?
      invariant |arena'| == |arena| && Linked(arena', use, row, left) && left[0].meta.undo == idx
      invariant Freed(arena', left) == Freed(arena, h)
      invariant free' + Slots(left) == free + Slots(h)
      invariant freed + |left| == |h|
      decreases |left|
    {
      var version := arena'[idx].value;
      LinkedFrame(arena', use, arena'[idx := None], use, row, left[1..]);
      assert Slots(left) == [idx] + Slots(left[1..]);
      assert free' + Slots(left) == free' + [idx] + Slots(left[1..]);
      arena' := arena'[idx := None];
      free' := free' + [idx];
      idx := version.meta.undo;
      freed := freed + 1;
      left := left[1..];
    }
  }

  class VersionStore {
    var now: State

    ghost predicate Valid()
      reads this
    {
      Inv(now)
    }

    constructor ()
      ensures Valid()
      ensures now.spec == Spec([map[]], map[], 1, 0, 0, map[], map[], map[], None)
      ensures now.arena == [] && now.nextTxn == 1
    {
      now := State(map[], [], [], [], 1, 0, 0, {}, map[], map[], map[], [], None,
                   map[], map[], map[], map[], map[], Spec([map[]], map[], 1, 0, 0, map[], map[], map[], None));
      new;
      EmptyIsOk(now);
    }

    // Transactions -------------------------------------------------------------------------------

    method BeginTxn() returns (t: nat)
      requires Valid() && now.nextTxn < NO_UNDO
      modifies this
      ensures Valid() && Steps(old(now.spec), Begin, now.spec, Id(t))
      ensures now.arena == old(now.arena) && now.nextTxn == old(now.nextTxn) + 1
    {
      hide Inv, Steps;
      BeginStep(now);
      t := now.nextTxn;
      var active := now.active + {t};
      assert active - {t} == now.active - {t};
      now := now.(nextTxn := t + 1, active := active, undo := now.undo[t := []],
                  pinned := now.pinned[t := ReadView(t, active - {t}, t + 1)], spec := Begins(now.spec));
    }

    predicate Writing(t: nat)
      reads this
    {
      now.parking.Some? && now.parking.value.txn == t
    }

    /** A new statement of a transaction that reads what is committed by now. */
    method RefreshView(t: nat) returns (r: Reply)
      requires Valid()
      modifies this
      ensures Valid() && Steps(old(now.spec), Refresh(t), now.spec, r)
      ensures now.arena == old(now.arena) && now.nextTxn == old(now.nextTxn)
    {
      hide Inv, Steps;
      RefreshStep(now, t);
      if t !in now.pinned { return Unknown; }
      if Writing(t) { return Busy; }
      now := now.(pinned := now.pinned[t := ReadView(t, now.active - {t}, now.nextTxn)], spec := Refreshes(now.spec, t));
      r := Done;
    }

    /** Reads a transaction's open scans to their end; what they still have to give no longer
        comes from the store. */
    method DrainScans(t: nat)
      modifies this
      ensures now == Drained(old(now), t)
    {
      now := now.(scans := ScansWithout(now.scans, t), scanAt := TimesWithout(now.scanAt, now.scans, t),
                  spec := Closes(now.spec, t));
    }

    method CommitTxn(t: nat) returns (r: Reply)
      requires Valid()
      modifies this
      ensures Valid() && Steps(old(now.spec), Commit(t), now.spec, r)
      ensures now.arena == old(now.arena) && now.nextTxn == old(now.nextTxn)
    {
      hide Inv, Steps;
      CommitStep(now, t);
      if t !in now.pinned { return Unknown; }
      if Writing(t) { return Busy; }
      DrainScans(t);
      now := now.(active := now.active - {t}, undo := now.undo - {t}, pinned := now.pinned - {t},
                  order := now.order[t := |now.spec.history|], owner := OwnersWithout(now.owner, t),
                  spec := Commits(now.spec, t));
      r := Done;
    }

    /** A rollback starts: the transaction takes no more calls, but stays active until its last
        write is taken back. */
    method AbortTxn(t: nat) returns (r: Reply)
      requires Valid()
      modifies this
      ensures Valid() && Steps(old(now.spec), Abort(t), now.spec, r)
      ensures now.arena == old(now.arena) && now.nextTxn == old(now.nextTxn)
    {
      hide Inv, Steps;
      AbortStep(now, t);
      if t !in now.pinned { return Unknown; }
      if Writing(t) { return Busy; }
      DrainScans(t);
      now := now.(pinned := now.pinned - {t}, spec := Aborts(now.spec, t));
      r := Done;
    }

    /** A rollback ends: nothing of the transaction is left. */
    method FinishAbort(t: nat) returns (r: Reply)
      requires Valid()
      modifies this
      ensures Valid() && Steps(old(now.spec), Finish(t), now.spec, r)
      ensures now.arena == old(now.arena) && now.nextTxn == old(now.nextTxn)
    {
      hide Inv, Steps;
      FinishStep(now, t);
      if t !in now.active || t in now.pinned { return Unknown; }
      if t in now.undo && now.undo[t] != [] { return Busy; }
      now := now.(active := now.active - {t}, undo := now.undo - {t}, spec := Finishes(now.spec, t));
      r := Done;
    }

    // Writes -------------------------------------------------------------------------------------

    method InsertTuple(t: nat, tuple: Tuple) returns (r: Reply)
      requires Valid()
      modifies this
      ensures Valid() && Steps(old(now.spec), Insert(t, tuple), now.spec, r)
      ensures now.arena == old(now.arena) && now.nextTxn == old(now.nextTxn)
    {
      hide Inv, Steps;
      InsertStep(now, t, tuple);
      if t !in now.pinned { return Unknown; }
      if now.parking.Some? { return Busy; }
      Basics(now, t);
      var row, v := now.nextRow, Version(Fresh(t), tuple);
      now := now.(rows := now.rows[row := v], nextRow := row + 1, undo := now.undo[t := now.undo[t] + [Inserted(row)]],
                  hist := now.hist[row := [v]], owner := now.owner[row := t],
                  spec := Append(now.spec, t, Write(row, Some(tuple))).(nextRow := now.spec.nextRow + 1));
      r := Id(row);
    }

    function Admitted(t: nat, row: nat): Reply
      reads this
      requires t in now.pinned
    {
      if row !in now.rows then NotFound else AdmitWrite(now.active, now.pinned[t], t, now.rows[row].meta)
    }

    /** Deletion stamps the row's header in place. */
    method DeleteTuple(t: nat, row: nat) returns (r: Reply)
      requires Valid()
      modifies this
      ensures Valid() && Steps(old(now.spec), Delete(t, row), now.spec, r)
      ensures now.arena == old(now.arena) && now.nextTxn == old(now.nextTxn)
    {
      hide Inv, Steps, AdmitWrite;
      DeleteStep(now, t, row);
      if t !in now.pinned { return Unknown; }
      if now.parking.Some? { return Busy; }
      Basics(now, t);
      DrainScans(t);
      r := Admitted(t, row);
      if r == Done {
        var v := now.rows[row];
        now := now.(undo := now.undo[t := now.undo[t] + [Deleted(row, v)]],
                    rows := now.rows[row := v.(meta := v.meta.(xmax := t))],
                    hist := now.hist[row := [Dead(v, t)] + Older(Hist(now, row))], owner := now.owner[row := t],
                    spec := Append(now.spec, t, Write(row, None)));
      }
    }

    /** An update parks the version it supersedes first, so that no reader of the new version
        finds the old one missing. */
    method ParkVersion(t: nat, row: nat) returns (r: Reply)
      requires Valid() && |now.arena| < NO_UNDO
      modifies this
      ensures Valid() && Steps(old(now.spec), Park(t, row), now.spec, r)
      ensures |now.arena| <= |old(now.arena)| + 1 && now.nextTxn == old(now.nextTxn)
    {
      hide Inv, Steps, AdmitWrite;
      ParkStep(now, t, row);
      FreeInRange(now);
      if t !in now.pinned { return Unknown; }
      if now.parking.Some? { return Busy; }
      DrainScans(t);
      r := Admitted(t, row);
      if r == Done {
        var slot, v := |now.arena|, Some(now.rows[row]);
        if now.free != [] { slot := now.free[|now.free| - 1]; }
        now := now.(arena := if slot < |now.arena| then now.arena[slot := v] else now.arena + [v],
                    free := if now.free == [] then [] else now.free[..|now.free| - 1],
                    parking := Some(Parking(t, row, slot)), use := now.use[slot := Held],
                    spec := now.spec.(latch := Some((t, row))));
      }
    }

    /** The update's new version replaces the parked one in the leaf. */
    method InstallVersion(tuple: Tuple) returns (r: Reply)
      requires Valid()
      modifies this
      ensures Valid() && Steps(old(now.spec), Install(tuple), now.spec, r)
      ensures now.arena == old(now.arena) && now.nextTxn == old(now.nextTxn)
    {
      hide Inv, Steps;
      InstallStep(now, tuple);
      if now.parking.None? { return Unknown; }
      ParkingReady(now);
      var p := now.parking.value;
      var v := Version(RowMeta(p.txn, NO_XMAX, p.slot), tuple);
      ghost var h := Hist(now, p.row);
      now := now.(undo := now.undo[p.txn := now.undo[p.txn] + [Updated(p.row, now.rows[p.row], p.slot)]],
                  rows := now.rows[p.row := v], parking := None,
                  use := now.use[p.slot := Chain(p.row, if h == [] then 0 else |h| - 1)],
                  hist := now.hist[p.row := [v] + h], owner := now.owner[p.row := p.txn],
                  spec := Append(now.spec, p.txn, Write(p.row, Some(tuple))).(latch := None));
      r := Done;
    }

    /** Takes a transaction's newest write back: a rollback does it until the log is empty, a
        rollback to a savepoint until the log is as long as it was. */
    method UndoNewest(t: nat) returns (r: Reply)
      requires Valid()
      modifies this
      ensures Valid() && Steps(old(now.spec), StepBack(t), now.spec, r)
      ensures now.arena == old(now.arena) && now.nextTxn == old(now.nextTxn)
    {
      hide Inv, Steps;
      BackStep(now, t);
      if t !in now.active { return Unknown; }
      if now.parking.Some? { return Busy; }
      Basics(now, t);
      if now.undo[t] != [] { BackReady(now, t); }
      DrainScans(t);
      r := Done;
      if now.undo[t] != [] {
        var ops, op := now.undo[t][..|now.undo[t]| - 1], now.undo[t][|now.undo[t]| - 1];
        ghost var h := Hist(now, op.row);
        now := now.(undo := now.undo[t := ops], spec := StepsBack(now.spec, t),
                    owner := if RowOps(ops, op.row) == [] then now.owner - {op.row} else now.owner);
        match op {
          case Inserted(row) =>
            now := now.(rows := now.rows - {row}, hist := now.hist - {row});
          case Updated(row, was, slot) =>
            now := now.(rows := now.rows[row := was], orphans := now.orphans + [Orphan(slot, t)],
                        hist := now.hist[row := Older(h)], use := now.use[slot := Queued]);
          case Deleted(row, was) =>
            var v := now.rows[row].(meta := now.rows[row].meta.(xmax := was.meta.xmax));
            now := now.(rows := now.rows[row := v], hist := now.hist[row := [v] + Older(h)]);
        }
      }
    }

    // Reads --------------------------------------------------------------------------------------

    /** The row under a view: the walk over its versions decides, and the leaf's own bytes are
        fetched only if it ends at the leaf. */
    method ReadUnder(view: ReadView, row: nat) returns (value: Option<Tuple>)
      requires Valid()
      ensures value == Shown(Hist(now, row), SeenBy(view))
    {
      hide Inv;
      if row !in now.rows {
        NoLeaf(now, row);
        return None;
      }
      WalkReady(now, row);
      var leaf := now.rows[row];
      var v := VisibleVersion(leaf.meta, now.arena, view, Older(Hist(now, row)));
      assert Resolved(v, leaf.tuple) == Shown([Version(leaf.meta, leaf.tuple)] + Older(Hist(now, row)), SeenBy(view));
      value := Resolved(v, leaf.tuple);
    }

    method ReadTuple(t: nat, row: nat) returns (r: Reply)
      requires Valid()
      ensures Steps(now.spec, Read(t, row), now.spec, r)
    {
      hide Inv, Steps, Shown;
      if t !in now.pinned {
        ReadUnknown(now, t, row);
        return Unknown;
      }
      ReadStep(now, t, row);
      var value := ReadUnder(now.pinned[t], row);
      r := Value(value);
    }

    /** A scan keeps the view it was opened under, and stops before rows inserted since. */
    method OpenCursor(t: nat) returns (r: Reply)
      requires Valid()
      modifies this
      ensures Valid() && Steps(old(now.spec), OpenScan(t), now.spec, r)
      ensures now.arena == old(now.arena) && now.nextTxn == old(now.nextTxn)
    {
      hide Inv, Steps;
      OpenStep(now, t);
      if t !in now.pinned { return Unknown; }
      if Writing(t) { return Busy; }
      var k := now.nextScan;
      now := now.(nextScan := k + 1, scans := now.scans[k := Scan(t, now.pinned[t], now.nextRow)],
                  scanAt := now.scanAt[k := if t in now.spec.at then now.spec.at[t] else 0], spec := Opens(now.spec, t));
      r := Id(k);
    }

    method ReadCursor(k: nat, row: nat) returns (r: Reply)
      requires Valid()
      ensures Steps(now.spec, ReadScan(k, row), now.spec, r)
    {
      hide Inv, Steps, Shown;
      if k !in now.scans {
        ScanUnknown(now, k, row);
        return Unknown;
      }
      ScanStep(now, k, row);
      var c := now.scans[k];
      if row >= c.end { return Value(None); }
      var value := ReadUnder(c.view, row);
      r := Value(value);
    }

    method CloseCursor(k: nat) returns (r: Reply)
      requires Valid()
      modifies this
      ensures Valid() && Steps(old(now.spec), CloseScan(k), now.spec, r)
      ensures now.arena == old(now.arena) && now.nextTxn == old(now.nextTxn)
    {
      hide Inv, Steps;
      CloseStep(now, k);
      if k !in now.scans { return Unknown; }
      now := now.(scans := now.scans - {k}, scanAt := now.scanAt - {k},
                  spec := now.spec.(cursors := now.spec.cursors - {k}));
      r := Done;
    }

    // Purge --------------------------------------------------------------------------------------

    /** What a purge pass will judge by, however late it runs. */
    method TakeSnapshot()
      modifies this
      requires Valid()
      ensures Valid() && Steps(old(now.spec), PurgeSnapshot, now.spec, Done)
      ensures now.arena == old(now.arena) && now.nextTxn == old(now.nextTxn)
      ensures |now.passes| == |old(now.passes)| + 1
      ensures forall x: nat {:trigger SeenByAll(now, x)} :: Settled(now.passes[|now.passes| - 1], x) <==> SeenByAll(now, x)
    {
      hide Inv, Steps, Settled, SeenByAll;
      SnapshotStep(now);
      ghost var s := now;
      now := now.(passes := now.passes + [SnapshotPass(now)]);
      forall x: nat ensures Settled(now.passes[|now.passes| - 1], x) <==> SeenByAll(now, x) { PassSettles(s, x); }
    }

    /** One row of a pass. A row whose deletion everyone sees goes with its whole history; below a
        version everyone sees the history goes. Nobody's reads change. */
    method PurgeOne(i: nat, row: nat) returns (freed: nat)
      requires Valid()
      modifies this
      ensures Valid() && Steps(old(now.spec), PurgeRow(i, row), now.spec, Done)
      ensures |now.arena| == |old(now.arena)| && now.nextTxn == old(now.nextTxn)
      ensures |now.free| == |old(now.free)| + freed
      ensures i < |old(now.passes)| && old(now.parking).None? && row in old(now.rows) ==>
                var p, m := old(now.passes)[i], old(now.rows)[row].meta;
                && (m.xmax != NO_XMAX && Settled(p, m.xmax) <==> row !in now.rows)
                && (row in now.rows && Settled(p, m.xmin) ==> now.rows[row].meta.undo == NO_UNDO)
    {
      hide Inv, Steps, Settled, Freed, Slots;
      PurgeRowStep(now, i, row);
      freed := 0;
      if i < |now.passes| && now.parking.None? && row in now.rows {
        var p, v := now.passes[i], now.rows[row];
        WalkReady(now, row);
        FreedAt(now.arena, now.use, row, now.hist[row]);
        var arena, free;
        if v.meta.xmax != NO_XMAX && Settled(p, v.meta.xmax) {
          arena, free, freed := FreeChain(now.arena, now.free, v.meta.undo, now.use, row, now.hist[row]);
          now := now.(arena := arena, free := free, use := UseWithout(now.use, row),
                      rows := now.rows - {row}, hist := now.hist - {row});
        } else if v.meta.undo != NO_UNDO && Settled(p, v.meta.xmin) {
          arena, free, freed := FreeChain(now.arena, now.free, v.meta.undo, now.use, row, now.hist[row]);
          now := now.(arena := arena, free := free, use := UseWithout(now.use, row),
                      rows := now.rows[row := Unchain(v)], hist := now.hist[row := [Unchain(v)]]);
        }
      }
    }

    /** The slots of undone updates, once their transactions are settled. */
    method PurgeQueue(i: nat) returns (freed: nat)
      requires Valid()
      modifies this
      ensures Valid() && Steps(old(now.spec), PurgeOrphans(i), now.spec, Done)
      ensures |now.arena| == |old(now.arena)| && now.nextTxn == old(now.nextTxn)
      ensures |now.free| == |old(now.free)| + freed
      ensures i < |old(now.passes)| ==>
                forall j {:trigger now.orphans[j]} :: 0 <= j < |now.orphans| ==> !Settled(old(now.passes)[i], now.orphans[j].txn)
    {
      hide Inv, Steps, Settled;
      PurgeSkipped(now, i);
      freed := 0;
      if i >= |now.passes| { return; }
      var p, j := now.passes[i], 0;
      while j < |now.orphans|
        invariant Valid() && j <= |now.orphans| && now.spec == old(now.spec)
        invariant |now.arena| == |old(now.arena)| && now.nextTxn == old(now.nextTxn)
        invariant |now.free| == |old(now.free)| + freed
        invariant forall k {:trigger now.orphans[k]} :: 0 <= k < j ==> !Settled(p, now.orphans[k].txn)
        decreases |now.orphans| - j
      {
        var o := now.orphans[j];
        OrphanReady(now, j);
        if Settled(p, o.txn) {
          now := now.(arena := now.arena[o.slot := None], free := now.free + [o.slot], use := now.use - {o.slot},
                      orphans := now.orphans[..j] + now.orphans[j + 1..]);
          freed := freed + 1;
        } else {
          j := j + 1;
        }
      }
    }

    // Runs ---------------------------------------------------------------------------------------

    method Do(c: Command) returns (r: Reply)
      requires Valid() && now.nextTxn < NO_UNDO && |now.arena| < NO_UNDO
      modifies this
      ensures Valid() && Steps(old(now.spec), c, now.spec, r)
      ensures |now.arena| <= |old(now.arena)| + 1 && now.nextTxn <= old(now.nextTxn) + 1
    {
      hide Inv, Steps;
      match c {
        case Begin => var t := BeginTxn(); r := Id(t);
        case Refresh(t) => r := RefreshView(t);
        case Commit(t) => r := CommitTxn(t);
        case Abort(t) => r := AbortTxn(t);
        case StepBack(t) => r := UndoNewest(t);
        case Finish(t) => r := FinishAbort(t);
        case Insert(t, tuple) => r := InsertTuple(t, tuple);
        case Park(t, row) => r := ParkVersion(t, row);
        case Install(tuple) => r := InstallVersion(tuple);
        case Delete(t, row) => r := DeleteTuple(t, row);
        case Read(t, row) => r := ReadTuple(t, row);
        case OpenScan(t) => r := OpenCursor(t);
        case ReadScan(k, row) => r := ReadCursor(k, row);
        case CloseScan(k) => r := CloseCursor(k);
        case PurgeSnapshot => TakeSnapshot(); r := Done;
        case PurgeRow(i, row) => var _ := PurgeOne(i, row); r := Done;
        case PurgeOrphans(i) => var _ := PurgeQueue(i); r := Done;
      }
    }
  }

  lemma RunNothing(cs: seq<Command>)
    ensures WellFormed(Start()) && (Start(), []) == RunSpec(Start(), cs[..0])
  {
    StartOk();
  }

  /** One more command extends the reference run by one step. */
  lemma RunOneMore(cs: seq<Command>, i: nat, sp: Spec, rs: seq<Reply>, sp2: Spec, r: Reply)
    requires i < |cs| && WellFormed(Start()) && (sp, rs) == RunSpec(Start(), cs[..i])
    requires Steps(sp, cs[i], sp2, r)
    ensures (sp2, rs + [r]) == RunSpec(Start(), cs[..i + 1])
  {
    assert cs[..i + 1][..i] == cs[..i];
  }

  /** Any interleaving of the steps, from an empty store: every answer is that of snapshot isolation
      with first-updater-wins. Chains, recycled arena slots, rollbacks half done and purge passes
      cannot be told from outside. */
  method Run(cs: seq<Command>) returns (rs: seq<Reply>)
    requires |cs| + 1 < NO_UNDO
    ensures WellFormed(Start()) && rs == RunSpec(Start(), cs).1
  {
    hide Inv, RunSpec, Steps;
    StartOk();
    RunNothing(cs);
    var store := new VersionStore();
    rs := [];
    for i := 0 to |cs|
      invariant store.Valid() && fresh(store)
      invariant |store.now.arena| <= i && store.now.nextTxn <= i + 1
      invariant (store.now.spec, rs) == RunSpec(Start(), cs[..i])
    {
      ghost var was := store.now.spec;
      var r := store.Do(cs[i]);
      RunOneMore(cs, i, was, rs, store.now.spec, r);
      rs := rs + [r];
    }
    assert cs[..|cs|] == cs;
  }
}
