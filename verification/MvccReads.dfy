/** What a view reads, and which writes are admitted, in terms of the reference machine. */
module MvccReads {
  import opened Bytes
  import opened VersionChain
  import opened SnapshotSpec
  import opened MvccInvariant
  import opened MvccHistory
  import opened MvccSteps

  /** Whether `t` wrote a row shows in its log and in its writes alike. */
  lemma {:induction false} WroteIsOwned(s: State, t: nat, row: nat)
    requires TxnsOk(s) && RowOk(s, row) && t in s.active
    ensures Wrote(s.spec.writes[t], row) <==> row in s.owner && s.owner[row] == t
    ensures row in s.owner && s.owner[row] == t ==> Vals(s, row) == RowWrites(s.spec.writes[t], row)
    ensures !(row in s.owner && s.owner[row] == t) ==>
              RowOps(s.undo[t], row) == [] && RowWrites(s.spec.writes[t], row) == []
  {
    hide Stacked, Base, Bottom, Linked, RowOps, RowWrites;
    assert TxnOk(s, t);
    LogRows(s.undo[t], s.spec.writes[t], row);
  }

  lemma Unowned(s: State, row: nat)
    requires RowOk(s, row) && row !in s.owner
    ensures Base(s, row, Hist(s, row))
  {
    hide Base, Linked;
  }

  /** The chain walk under a view gives the row as committed when the view was taken, plus the
      observer's own writes. */
  lemma ReadExact(s: State, v: ReadView, own: nat, at: nat, row: nat)
    requires TxnsOk(s) && RowOk(s, row) && ViewOk(s, v, own, at) && LiveTime(s, at)
    requires row in s.owner && s.owner[row] == own && row in s.spec.changed ==> s.spec.changed[row] <= at
    ensures Shown(Hist(s, row), SeenBy(v)) == Expected(s.spec, own, at, row)
  {
    hide Linked, Stacked, Bottom, RowOps, RowWrites, LiveTime;
    var h := Hist(s, row);
    WroteIsOwned(s, own, row);
    assert TxnOk(s, own);
    if row !in s.owner {
      Unowned(s, row);
      CommittedAgree(h, s.order, SeenBy(v), By(s.order, at));
    } else {
      var t, ops, vals := s.owner[row], Ops(s, row), Vals(s, row);
      assert TxnOk(s, t);
      var b := Bottom(h, ops);
      if t != own {
        UnseenWrites(h, t, ops, vals, SeenBy(v));
        CommittedAgree(b, s.order, SeenBy(v), By(s.order, at));
      } else {
        WriterOnTop(h, t, ops, vals);
        if h[0].meta.xmin != t { assert b[0] == Live(h[0]); }
        TopShown(h, SeenBy(v));
      }
    }
  }

  /** No-wait write admission: a row last written by somebody running, or by somebody this
      transaction's view does not see, conflicts; a deleted row is not found. */
  function AdmitWrite(active: set<nat>, view: ReadView, t: nat, meta: RowMeta): Reply {
    if meta.xmin != t && meta.xmin in active then Conflict
    else if meta.xmax != NO_XMAX then
      if (meta.xmax != t && meta.xmax in active) || !Sees(view, meta.xmax) then Conflict else NotFound
    else if !Sees(view, meta.xmin) then Conflict
    else Done
  }

  lemma OthersWrote(s: State, t: nat, row: nat)
    requires TxnsOk(s) && RowOk(s, row) && t in s.active
    ensures WrittenByOther(s.spec, t, row) <==> row in s.owner && s.owner[row] != t
  {
    hide Stacked, Base, Bottom, Linked, RowOps, RowWrites;
    forall other | other in s.spec.writes
      ensures Wrote(s.spec.writes[other], row) <==> row in s.owner && s.owner[row] == other
    {
      WroteIsOwned(s, other, row);
    }
  }

  /** The decision from the row's header alone is the reference machine's. */
  lemma AdmitOwned(s: State, t: nat, row: nat)
    requires TxnsOk(s) && RowOk(s, row) && PinnedOk(s, t) && t in s.pinned && row in s.owner
    ensures row in s.rows && AdmitWrite(s.active, s.pinned[t], t, s.rows[row].meta) == Admit(s.spec, t, row)
    ensures Admit(s.spec, t, row) == Done ==> s.rows[row].meta.xmax == NO_XMAX && s.owner[row] == t
  {
    hide Linked, Stacked, Bottom, RowOps, RowWrites, LiveTime, Base, LogOk, WrittenByOther;
    var h, w := Hist(s, row), s.owner[row];
    WroteIsOwned(s, t, row);
    OthersWrote(s, t, row);
    assert TxnOk(s, t) && TxnOk(s, w);
    WriterOnTop(h, w, Ops(s, row), Vals(s, row));
    OwnedHead(s, row);
  }

  /** The newest version of an uncommitted row is its writer's, or committed and deleted by it. */
  lemma OwnedHead(s: State, row: nat)
    requires TxnsOk(s) && RowOk(s, row) && row in s.owner
    ensures row in s.hist && Hist(s, row) != [] && Hist(s, row)[0] == s.rows[row]
    ensures Hist(s, row)[0].meta.xmin == s.owner[row] || Hist(s, row)[0].meta.xmin !in s.active
  {
    hide LiveTime, Shown, LogOk;
    var h, w := Hist(s, row), s.owner[row];
    assert TxnOk(s, w);
    WriterOnTop(h, w, Ops(s, row), Vals(s, row));
    if h[0].meta.xmin != w {
      assert Bottom(h, Ops(s, row))[0] == Live(h[0]);
      NotRunning(s, h[0].meta.xmin);
    }
  }

  lemma AdmitUnowned(s: State, t: nat, row: nat)
    requires TxnsOk(s) && RowOk(s, row) && PinnedOk(s, t) && t in s.pinned && row in s.rows && row !in s.owner
    ensures AdmitWrite(s.active, s.pinned[t], t, s.rows[row].meta) == Admit(s.spec, t, row)
    ensures Admit(s.spec, t, row) == Done ==>
              s.rows[row].meta.xmax == NO_XMAX && row in s.spec.changed && s.spec.changed[row] <= s.spec.at[t]
  {
    hide Linked, Stacked, Bottom, RowOps, RowWrites, LogOk, WrittenByOther, Shown, LiveTime;
    var h, v, clock := Hist(s, row), s.pinned[t], Clock(s.spec);
    WroteIsOwned(s, t, row);
    OthersWrote(s, t, row);
    Unowned(s, row);
    HeadIs(s, row);
    assert TxnOk(s, t);
    NotRunning(s, LastStamp(h[0]));
    NotRunning(s, h[0].meta.xmin);
    NowLive(s);
    TopShown(h, By(s.order, clock));
    assert Sees(v, LastStamp(h[0])) <==> s.order[LastStamp(h[0])] <= s.spec.at[t];
  }

  lemma HeadIs(s: State, row: nat)
    requires RowOk(s, row) && row in s.rows
    ensures Hist(s, row) != [] && Hist(s, row)[0] == s.rows[row]
  {
  }

  lemma NotRunning(s: State, x: nat)
    requires TxnsOk(s) && x in s.order
    ensures x !in s.active
  {
    assert x in s.active ==> TxnOk(s, x);
  }

  lemma NowLive(s: State)
    requires s.spec.history != []
    ensures LiveTime(s, Clock(s.spec))
  {
  }

  lemma AdmitExact(s: State, t: nat, row: nat)
    requires TxnsOk(s) && RowsOk(s) && ViewsOk(s) && t in s.pinned
    ensures Admit(s.spec, t, row)
            == if row in s.rows then AdmitWrite(s.active, s.pinned[t], t, s.rows[row].meta) else NotFound
    ensures Admit(s.spec, t, row) == Done ==> MayWrite(s, t, row)
  {
    hide Linked, Stacked, Bottom, RowOps, RowWrites, ViewOk, WrittenByOther, LogOk, ScanOk, LiveTime, AdmitWrite;
    assert RowOk(s, row) && PinnedOk(s, t) && Saw(s, row);
    if row in s.owner {
      AdmitOwned(s, t, row);
    } else if row in s.rows {
      AdmitUnowned(s, t, row);
    } else {
      Unowned(s, row);
      WroteIsOwned(s, t, row);
      OthersWrote(s, t, row);
      NowLive(s);
      PinnedLive(s, t);
    }
  }

  lemma PinnedLive(s: State, t: nat)
    requires t in s.spec.at && s.spec.at[t] < |s.spec.history|
    ensures LiveTime(s, s.spec.at[t])
  {
  }
}
