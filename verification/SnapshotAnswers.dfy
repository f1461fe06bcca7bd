/** The reference machine seen from outside: what each command answers, in terms of the commands
    before it and of what transactions read. */
module SnapshotAnswers {
  import opened Bytes
  import opened VersionChain
  import opened SnapshotSpec
  import opened SnapshotLaws

  /** The machine after the commands `cs`, and what it answers to one more. */
  ghost function After(cs: seq<Command>): (sp: Spec)
    ensures WellFormed(sp)
  {
    StartOk();
    RunSpec(Start(), cs).0
  }

  ghost function Ask(cs: seq<Command>, c: Command): Reply { Step(After(cs), c).1 }

  lemma AskIsLast(cs: seq<Command>, c: Command)
    ensures WellFormed(Start()) && RunSpec(Start(), cs + [c]).1 == RunSpec(Start(), cs).1 + [Ask(cs, c)]
    ensures After(cs + [c]) == Step(After(cs), c).0
  {
    StartOk();
    assert (cs + [c])[..|cs|] == cs;
  }

  // What the commands so far say -----------------------------------------------------------------

  /** The transactions begun and neither committed nor aborted. */
  ghost function Live(cs: seq<Command>): set<nat> {
    if cs == [] then {}
    else
      var before, c := cs[..|cs| - 1], cs[|cs| - 1];
      if c.Begin? && Ask(before, c).Id? then Live(before) + {Ask(before, c).id}
      else if (c.Commit? || c.Abort?) && Ask(before, c) == Done then Live(before) - {c.txn}
      else Live(before)
  }

  /** The transactions begun whose writes are neither committed nor all taken back. */
  ghost function Unsettled(cs: seq<Command>): set<nat> {
    if cs == [] then {}
    else
      var before, c := cs[..|cs| - 1], cs[|cs| - 1];
      if c.Begin? && Ask(before, c).Id? then Unsettled(before) + {Ask(before, c).id}
      else if (c.Commit? || c.Finish?) && Ask(before, c) == Done then Unsettled(before) - {c.txn}
      else Unsettled(before)
  }

  /** The update between its two steps: the last parked and not yet installed. */
  ghost function UnderWay(cs: seq<Command>): Option<(nat, nat)> {
    if cs == [] then None
    else
      var before, c := cs[..|cs| - 1], cs[|cs| - 1];
      if c.Park? && Ask(before, c) == Done then Some((c.txn, c.row))
      else if c.Install? && Ask(before, c) == Done then None
      else UnderWay(before)
  }

  /** The rows a transaction has written and not taken back, the newest last. */
  ghost function Logged(cs: seq<Command>, t: nat): seq<nat> {
    if cs == [] then []
    else
      var before, c := cs[..|cs| - 1], cs[|cs| - 1];
      var r := Ask(before, c);
      if c.Begin? && r == Id(t) then []
      else if c.Insert? && c.txn == t && r.Id? then Logged(before, t) + [r.id]
      else if c.Delete? && c.txn == t && r == Done then Logged(before, t) + [c.row]
      else if c.Install? && r == Done && UnderWay(before).Some? && UnderWay(before).value.0 == t then
        Logged(before, t) + [UnderWay(before).value.1]
      else if c.StepBack? && c.txn == t && r == Done && Logged(before, t) != [] then
        Logged(before, t)[..|Logged(before, t)| - 1]
      else if (c.Commit? || c.Finish?) && c.txn == t && r == Done then []
      else Logged(before, t)
  }

  function Rows(ws: seq<Write>): seq<nat> { seq(|ws|, i requires 0 <= i < |ws| => ws[i].row) }

  /** What the machine keeps is what the commands say. */
  ghost predicate Agrees(cs: seq<Command>) {
    var sp := After(cs);
    && sp.at.Keys == Live(cs) && sp.writes.Keys == Unsettled(cs) && sp.latch == UnderWay(cs)
    && (forall t: nat {:trigger Logged(cs, t)} :: Logged(cs, t) == Rows(WritesOf(sp, t)))
    && (forall t: nat {:trigger t in sp.writes} :: t in sp.writes ==> t < sp.nextTxn)
  }

  lemma LiveNext(cs: seq<Command>, c: Command)
    ensures Live(cs + [c]) ==
            if c.Begin? && Ask(cs, c).Id? then Live(cs) + {Ask(cs, c).id}
            else if (c.Commit? || c.Abort?) && Ask(cs, c) == Done then Live(cs) - {c.txn}
            else Live(cs)
    ensures Unsettled(cs + [c]) ==
            if c.Begin? && Ask(cs, c).Id? then Unsettled(cs) + {Ask(cs, c).id}
            else if (c.Commit? || c.Finish?) && Ask(cs, c) == Done then Unsettled(cs) - {c.txn}
            else Unsettled(cs)
    ensures UnderWay(cs + [c]) ==
            if c.Park? && Ask(cs, c) == Done then Some((c.txn, c.row))
            else if c.Install? && Ask(cs, c) == Done then None
            else UnderWay(cs)
  {
    hide Ask;
    assert (cs + [c])[..|cs|] == cs && (cs + [c])[|cs|] == c;
  }

  lemma LoggedNext(cs: seq<Command>, c: Command, t: nat)
    ensures var r := Ask(cs, c);
            Logged(cs + [c], t) ==
            if c.Begin? && r == Id(t) then []
            else if c.Insert? && c.txn == t && r.Id? then Logged(cs, t) + [r.id]
            else if c.Delete? && c.txn == t && r == Done then Logged(cs, t) + [c.row]
            else if c.Install? && r == Done && UnderWay(cs).Some? && UnderWay(cs).value.0 == t then
              Logged(cs, t) + [UnderWay(cs).value.1]
            else if c.StepBack? && c.txn == t && r == Done && Logged(cs, t) != [] then
              Logged(cs, t)[..|Logged(cs, t)| - 1]
            else if (c.Commit? || c.Finish?) && c.txn == t && r == Done then []
            else Logged(cs, t)
  {
    hide Ask, UnderWay;
    assert (cs + [c])[..|cs|] == cs && (cs + [c])[|cs|] == c;
  }

  predicate Bounds(c: Command) {
    c.Begin? || c.Refresh? || c.Commit? || c.Abort? || c.StepBack? || c.Finish?
  }

  predicate Writes(c: Command) { c.Insert? || c.Park? || c.Install? || c.Delete? }

  /** What a step does to who runs, what is under way and who has written which rows. */
  ghost predicate Effect(sp: Spec, c: Command, sp2: Spec, r: Reply) {
    && sp2.at.Keys == (if c.Begin? && r.Id? then sp.at.Keys + {r.id}
                       else if (c.Commit? || c.Abort?) && r == Done then sp.at.Keys - {c.txn} else sp.at.Keys)
    && sp2.writes.Keys == (if c.Begin? && r.Id? then sp.writes.Keys + {r.id}
                           else if (c.Commit? || c.Finish?) && r == Done then sp.writes.Keys - {c.txn} else sp.writes.Keys)
    && sp2.latch == (if c.Park? && r == Done then Some((c.txn, c.row))
                     else if c.Install? && r == Done then None else sp.latch)
    && sp.nextTxn <= sp2.nextTxn
    && (c.Begin? && r.Id? ==> r.id == sp.nextTxn < sp2.nextTxn)
    && forall t: nat {:trigger WritesOf(sp2, t)} :: WroteBy(sp, c, sp2, r, t)
  }

  ghost predicate WroteBy(sp: Spec, c: Command, sp2: Spec, r: Reply, t: nat) {
    && Rows(WritesOf(sp2, t)) ==
       (var ws := Rows(WritesOf(sp, t));
        if c.Begin? && r == Id(t) then []
        else if c.Insert? && c.txn == t && r.Id? then ws + [r.id]
        else if c.Delete? && c.txn == t && r == Done then ws + [c.row]
        else if c.Install? && r == Done && sp.latch.Some? && sp.latch.value.0 == t then ws + [sp.latch.value.1]
        else if c.StepBack? && c.txn == t && r == Done && ws != [] then ws[..|ws| - 1]
        else if (c.Commit? || c.Finish?) && c.txn == t && r == Done then []
        else ws)
    && (t in sp2.writes ==> t in sp.writes || t == sp.nextTxn < sp2.nextTxn)
  }

  lemma BoundsWrote(sp: Spec, c: Command, t: nat)
    requires WellFormed(sp) && Bounds(c)
    ensures WroteBy(sp, c, Step(sp, c).0, Step(sp, c).1, t)
  {
    hide RowWrites, Apply, Mark, Admit, Expected;
  }

  lemma BoundsEffect(sp: Spec, c: Command)
    requires WellFormed(sp) && Bounds(c)
    ensures Effect(sp, c, Step(sp, c).0, Step(sp, c).1)
  {
    hide RowWrites, Apply, Mark, Admit, Expected, WroteBy;
    var sp2, r := Step(sp, c).0, Step(sp, c).1;
    forall t: nat ensures WroteBy(sp, c, sp2, r, t) { BoundsWrote(sp, c, t); }
  }

  lemma WritesWrote(sp: Spec, c: Command, t: nat)
    requires WellFormed(sp) && Writes(c)
    ensures WroteBy(sp, c, Step(sp, c).0, Step(sp, c).1, t)
  {
    hide RowWrites, Apply, Mark, Admit, Expected;
  }

  lemma WritesEffect(sp: Spec, c: Command)
    requires WellFormed(sp) && Writes(c)
    ensures Effect(sp, c, Step(sp, c).0, Step(sp, c).1)
  {
    hide RowWrites, Apply, Mark, Admit, Expected, WroteBy;
    var sp2, r := Step(sp, c).0, Step(sp, c).1;
    forall t: nat ensures WroteBy(sp, c, sp2, r, t) { WritesWrote(sp, c, t); }
  }

  lemma OtherEffect(sp: Spec, c: Command)
    requires WellFormed(sp) && !Bounds(c) && !Writes(c)
    ensures Effect(sp, c, Step(sp, c).0, Step(sp, c).1)
  {
    hide RowWrites, Apply, Mark, Admit, Expected;
    var sp2, r := Step(sp, c).0, Step(sp, c).1;
    forall t: nat ensures WroteBy(sp, c, sp2, r, t) {}
  }

  lemma StepEffect(sp: Spec, c: Command)
    requires WellFormed(sp)
    ensures Effect(sp, c, Step(sp, c).0, Step(sp, c).1)
  {
    hide Effect, Step;
    if Bounds(c) { BoundsEffect(sp, c); } else if Writes(c) { WritesEffect(sp, c); } else { OtherEffect(sp, c); }
  }

  lemma AgreesStep(cs: seq<Command>, c: Command)
    requires Agrees(cs)
    ensures Agrees(cs + [c])
  {
    hide After, Live, Unsettled, UnderWay, Logged, Step, Rows, WellFormed;
    AskIsLast(cs, c);
    StepEffect(After(cs), c);
    LiveNext(cs, c);
    var sp, sp2 := After(cs), After(cs + [c]);
    forall t: nat ensures Logged(cs + [c], t) == Rows(WritesOf(sp2, t)) && (t in sp2.writes ==> t < sp2.nextTxn) {
      LoggedNext(cs, c, t);
      assert WroteBy(sp, c, sp2, Ask(cs, c), t);
    }
  }

  lemma {:induction false} AlwaysAgrees(cs: seq<Command>)
    ensures Agrees(cs)
    decreases |cs|
  {
    if cs != [] {
      var n := |cs| - 1;
      AlwaysAgrees(cs[..n]);
      AgreesStep(cs[..n], cs[n]);
      assert cs[..n] + [cs[n]] == cs;
    } else {
      assert After(cs) == Start();
    }
  }
}
