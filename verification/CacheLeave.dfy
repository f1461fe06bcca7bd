/** A frame leaving the directory: evicted clean, evicted to the spill, or freed. */
module CacheLeave {
  import opened Bytes
  import opened CacheState
  import opened SpillFile
  import opened CacheSteps

  /** The history once the frame of `id` has left and the live pages hold `live`. */
  ghost function Parted(s: State, h: History, id: nat, live: map<nat, Page>): History {
    if id in s.dir then
      Leave(Tell(h, live), s.dir[id]).(stray := h.stray + if WriteUnderWay(s, id) then 1 else 0)
    else Tell(h, live)
  }

  /** A write has found the clean frame of `id` registered and is still to come: what a caller must
      rule out before it frees the page. */
  predicate WriteUnderWay(s: State, id: nat) {
    && id in s.dir && !DirtyHere(s, id)
    && exists t :: t in s.tasks && s.tasks[t].PutLatched? && s.tasks[t].frame == s.dir[id]
  }

  function Leaving(s: State, id: nat, spill: Spill, owned: set<nat>, tasks: map<nat, Task>): State {
    Unregistering(s, id, spill).(owned := owned, tasks := tasks)
  }

  /** The spill after a section about page `id`: other pages keep their copies, and a copy of `id`
      is a new one. */
  ghost predicate SpillsOnly(p: Spill, q: Spill, id: nat) {
    && q.gen >= p.gen
    && (forall a :: a != id ==> (a in q.slots <==> a in p.slots))
    && (forall a :: a != id && a in p.slots ==> q.slots[a] == p.slots[a] && SpillCopy(q, a) == SpillCopy(p, a))
    && (id in q.slots ==> q.slots[id].gen > p.gen)
  }

  /** Nobody writes to the frame that leaves, or its page is freed and no allocation writes to it. */
  ghost predicate LeavesWriter(s: State, f: nat, freed: bool) {
    forall t {:trigger LatchedBy(s, t, f)} :: LatchedBy(s, t, f) && s.tasks[t].PutLatched? ==> freed && !s.tasks[t].newly
  }

  ghost predicate MayLeave(s: State, h: History, id: nat, spill: Spill, live: map<nat, Page>) {
    && SpillsOnly(s.spill, spill, id)
    && OnlyAt(h, live, id)
    && (id in s.dir ==> LeavesWriter(s, s.dir[id], id !in live))
    && (id in live ==>
          if id in spill.slots then Alike(h, live[id], SpillCopy(spill, id))
          else id in s.image && Alike(h, live[id], s.image[id]))
  }

  /** The threads afterwards: the same, but for one that may now hold `id` on its way to the
      free list. */
  ghost predicate SameOrDrops(s: State, tasks: map<nat, Task>, id: nat) {
    tasks == s.tasks || exists t: nat :: t !in s.tasks && tasks == s.tasks[t := Drop(id)]
  }

  lemma LeaveKept(s: State, h: History, id: nat, spill: Spill, live: map<nat, Page>, owned: set<nat>, tasks: map<nat, Task>, a: nat)
    requires Kept(s, h, a) && CleanKept(s, h, a) && MayLeave(s, h, id, spill, live)
    ensures Kept(Leaving(s, id, spill, owned, tasks), Parted(s, h, id, live), a)
    ensures CleanKept(Leaving(s, id, spill, owned, tasks), Parted(s, h, id, live), a)
  {
    assert Live(Parted(s, h, id, live)) == live;
  }

  lemma LeaveContent(s: State, h: History, id: nat, spill: Spill, live: map<nat, Page>, owned: set<nat>, tasks: map<nat, Task>)
    requires ContentOk(s, h) && MayLeave(s, h, id, spill, live)
    ensures ContentOk(Leaving(s, id, spill, owned, tasks), Parted(s, h, id, live))
  {
    hide Kept, CleanKept, MayLeave, Leaving;
    var s2, h2 := Leaving(s, id, spill, owned, tasks), Parted(s, h, id, live);
    forall a ensures Kept(s2, h2, a) && CleanKept(s2, h2, a) {
      assert Kept(s, h, a) && CleanKept(s, h, a);
      LeaveKept(s, h, id, spill, live, owned, tasks, a);
    }
  }

  lemma LeaveDir(s: State, h: History, id: nat, spill: Spill, live: map<nat, Page>, owned: set<nat>, tasks: map<nat, Task>)
    requires DirOk(s) && MayLeave(s, h, id, spill, live)
    ensures DirOk(Leaving(s, id, spill, owned, tasks))
  {
    var s2 := Leaving(s, id, spill, owned, tasks);
    forall a ensures NamesFrame(s2, a) { assert NamesFrame(s, a); }
  }

  /** The frame that left held its page's current content, or its page is no longer live. */
  lemma LeftNow(s: State, h: History, id: nat, live: map<nat, Page>)
    requires ContentOk(s, h) && DirOk(s) && id in s.dir && (id in live ==> id in Live(h) && live[id] == Live(h)[id])
    ensures s.dir[id] < |s.frames| && s.frames[s.dir[id]].id == id
    ensures AsOf(Tell(h, live), id, s.frames[s.dir[id]].data, Now(Tell(h, live)))
  {
    assert Kept(s, h, id) && NamesFrame(s, id);
  }

  lemma LeaveFrames(s: State, h: History, id: nat, spill: Spill, live: map<nat, Page>, owned: set<nat>, tasks: map<nat, Task>)
    requires ContentOk(s, h) && FramesOk(s, h) && DirOk(s) && (id in live ==> id in Live(h) && live[id] == Live(h)[id])
    ensures FramesOk(Leaving(s, id, spill, owned, tasks), Parted(s, h, id, live))
  {
    hide ContentOk, DirOk, Kept;
    var s2, h2 := Leaving(s, id, spill, owned, tasks), Parted(s, h, id, live);
    if id in s.dir { LeftNow(s, h, id, live); }
    forall f: nat ensures LeftAsOf(s2, h2, f) { assert LeftAsOf(s, h, f); }
  }

  lemma LeaveDirty(s: State, id: nat, spill: Spill, owned: set<nat>, tasks: map<nat, Task>)
    ensures DirtyIds(Leaving(s, id, spill, owned, tasks)) == DirtyIds(s) - {id}
    ensures id in DirtyIds(s) <==> DirtyHere(s, id)
  {
    var s2 := Leaving(s, id, spill, owned, tasks);
    forall a ensures IsDirty(s2, a) <==> IsDirty(s, a) && a != id {}
  }

  /** A latch holder's frame stays registered unless it is the one that leaves. */
  lemma LeaveRegistered(s: State, id: nat, spill: Spill, owned: set<nat>, tasks: map<nat, Task>, f: nat)
    requires DirOk(s) && f < |s.frames|
    ensures Registered(Leaving(s, id, spill, owned, tasks), f) <==> Registered(s, f) && s.frames[f].id != id
    ensures Registered(s, f) && s.frames[f].id == id ==> id in s.dir && s.dir[id] == f
  {
  }

  lemma LeaveStraysAt(s: State, h: History, id: nat, spill: Spill, owned: set<nat>, tasks: map<nat, Task>, u: nat)
    requires DirOk(s) && TaskOk(s, h, u) && SameOrDrops(s, tasks, id)
    ensures var s2 := Leaving(s, id, spill, owned, tasks);
            u in Straying(s2) <==> u in Straying(s) || LosesFrame(s, id, u)
  {
    assert NamesFrame(s, id);
    if u in s.tasks && s.tasks[u].PutLatched? { LeaveRegistered(s, id, spill, owned, tasks, s.tasks[u].frame); }
  }

  lemma LeaveCounting(s: State, id: nat, spill: Spill, owned: set<nat>, tasks: map<nat, Task>)
    requires SameOrDrops(s, tasks, id)
    ensures Counting(Leaving(s, id, spill, owned, tasks)) == Counting(s)
  {
  }

  /** The writes that lose their frame: those under way on the frame that leaves, if it is clean. */
  lemma LeaveStrays(s: State, h: History, id: nat, spill: Spill, owned: set<nat>, tasks: map<nat, Task>)
    requires DirOk(s) && LatchesOk(s) && TasksOk(s, h) && SameOrDrops(s, tasks, id)
    ensures |Straying(Leaving(s, id, spill, owned, tasks))| == |Straying(s)| + (if WriteUnderWay(s, id) then 1 else 0)
    ensures Counting(Leaving(s, id, spill, owned, tasks)) == Counting(s)
  {
    hide Leaving, Straying, Counting, TaskOk;
    var s2 := Leaving(s, id, spill, owned, tasks);
    LeaveCounting(s, id, spill, owned, tasks);
    forall u ensures u in Straying(s2) <==> u in Straying(s) || LosesFrame(s, id, u) {
      assert TaskOk(s, h, u);
      LeaveStraysAt(s, h, id, spill, owned, tasks, u);
    }
    if WriteUnderWay(s, id) {
      var t :| t in s.tasks && s.tasks[t].PutLatched? && s.tasks[t].frame == s.dir[id];
      OneLoses(s, id, t);
      NotStraying(s, id, t);
      assert Straying(s2) == Straying(s) + {t};
    } else {
      assert Straying(s2) == Straying(s);
    }
  }

  lemma NotStraying(s: State, id: nat, t: nat)
    requires DirOk(s) && id in s.dir && t in s.tasks && s.tasks[t].PutLatched? && s.tasks[t].frame == s.dir[id]
    ensures t !in Straying(s)
  {
    assert NamesFrame(s, id);
  }

  ghost predicate LosesFrame(s: State, id: nat, u: nat) {
    && id in s.dir && !DirtyHere(s, id)
    && u in s.tasks && s.tasks[u].PutLatched? && s.tasks[u].frame == s.dir[id]
  }

  lemma OneLoses(s: State, id: nat, t: nat)
    requires LatchesOk(s) && LosesFrame(s, id, t)
    ensures forall u {:trigger LosesFrame(s, id, u)} :: LosesFrame(s, id, u) ==> u == t
  {
    assert LatchedBy(s, t, s.dir[id]);
    forall u | LosesFrame(s, id, u) ensures u == t { assert LatchedBy(s, u, s.dir[id]); }
  }

  lemma LeaveDirtyOk(s: State, h: History, id: nat, spill: Spill, live: map<nat, Page>, owned: set<nat>, tasks: map<nat, Task>)
    requires DirtyOk(s, h) && DirOk(s) && LatchesOk(s) && TasksOk(s, h) && SameOrDrops(s, tasks, id)
    ensures DirtyOk(Leaving(s, id, spill, owned, tasks), Parted(s, h, id, live))
  {
    hide DirtyIds, DirtyHere, DirOk, LatchesOk, TasksOk, Straying, Counting, WriteUnderWay, SameOrDrops;
    LeaveDirty(s, id, spill, owned, tasks);
    LeaveStrays(s, h, id, spill, owned, tasks);
    if id !in s.dir { NoWriteUnderWay(s, id); }
  }

  lemma NoWriteUnderWay(s: State, id: nat)
    requires id !in s.dir
    ensures !WriteUnderWay(s, id) && !DirtyHere(s, id)
  {
  }

  lemma LeaveClock(s: State, id: nat, spill: Spill, owned: set<nat>, tasks: map<nat, Task>)
    requires ClockOk(s) && SameOrDrops(s, tasks, id)
    ensures ClockOk(Leaving(s, id, spill, owned, tasks))
  {
    hide DirtyHere;
    var s2 := Leaving(s, id, spill, owned, tasks);
    forall a | s2.capacity > 0 && a in s2.dir ensures Clocked(s2, a) {
      assert Clocked(s, a);
      if u :| Ticking(s, u, a) { assert Ticking(s2, u, a); }
    }
  }

  lemma LeaveLatches(s: State, id: nat, spill: Spill, owned: set<nat>, tasks: map<nat, Task>)
    requires LatchesOk(s) && SameOrDrops(s, tasks, id)
    ensures LatchesOk(Leaving(s, id, spill, owned, tasks))
  {
    var s2 := Leaving(s, id, spill, owned, tasks);
    forall u, w, f | LatchedBy(s2, u, f) && LatchedBy(s2, w, f) ensures u == w {
      assert LatchedBy(s, u, f) && LatchedBy(s, w, f);
    }
  }

  lemma LeaveTask(s: State, h: History, id: nat, spill: Spill, live: map<nat, Page>, owned: set<nat>, tasks: map<nat, Task>, u: nat)
    requires TaskOk(s, h, u) && DirOk(s) && h.past != [] && SpillsOnly(s.spill, spill, id)
    requires id in s.dir ==> LeavesWriter(s, s.dir[id], id !in live)
    requires u in s.tasks && u in tasks && tasks[u] == s.tasks[u]
    ensures TaskOk(Leaving(s, id, spill, owned, tasks), Parted(s, h, id, live), u)
  {
    assert NamesFrame(s, id);
    if id in s.dir && HoldsLatch(s.tasks[u], s.dir[id]) { assert LatchedBy(s, u, s.dir[id]); }
  }

  lemma LeaveTasks(s: State, h: History, id: nat, spill: Spill, live: map<nat, Page>, owned: set<nat>, tasks: map<nat, Task>)
    requires TasksOk(s, h) && DirOk(s) && ContentOk(s, h) && SpillsOnly(s.spill, spill, id) && SameOrDrops(s, tasks, id)
    requires id in s.dir ==> LeavesWriter(s, s.dir[id], id !in live)
    ensures TasksOk(Leaving(s, id, spill, owned, tasks), Parted(s, h, id, live))
  {
    var s2, h2 := Leaving(s, id, spill, owned, tasks), Parted(s, h, id, live);
    forall u ensures TaskOk(s2, h2, u) {
      assert TaskOk(s, h, u);
      if u in s.tasks { LeaveTask(s, h, id, spill, live, owned, tasks, u); }
    }
  }

  /** A frame leaves with its page's content safe elsewhere, or its page no longer live. */
  lemma Leaves(s: State, h: History, id: nat, spill: Spill, live: map<nat, Page>, owned: set<nat>, tasks: map<nat, Task>)
    requires Inv(s, h) && MayLeave(s, h, id, spill, live) && SpillOk(spill)
    requires SameOrDrops(s, tasks, id) && (id in live ==> id in Live(h) && live[id] == Live(h)[id])
    requires IdsOk(Leaving(s, id, spill, owned, tasks), Parted(s, h, id, live))
    ensures Inv(Leaving(s, id, spill, owned, tasks), Parted(s, h, id, live))
  {
    hide DirOk, SpillOk, ContentOk, FramesOk, IdsOk, DirtyOk, ClockOk, LatchesOk, TasksOk, OnlyAt, SameOrDrops, LeavesWriter;
    var s2 := Leaving(s, id, spill, owned, tasks);
    LeaveContent(s, h, id, spill, live, owned, tasks);
    LeaveDir(s, h, id, spill, live, owned, tasks);
    LeaveFrames(s, h, id, spill, live, owned, tasks);
    LeaveDirtyOk(s, h, id, spill, live, owned, tasks);
    LeaveClock(s, id, spill, owned, tasks);
    LeaveLatches(s, id, spill, owned, tasks);
    LeaveTasks(s, h, id, spill, live, owned, tasks);
    assert s2.spill == spill;
  }

  // ----- the three ways a frame leaves

  /** A clean frame leaves: the image holds its page. */
  lemma CleanLeaves(s: State, h: History, id: nat)
    requires Inv(s, h) && id in s.dir && !DirtyHere(s, id) && !Latched(s, s.dir[id])
    ensures Inv(Leaving(s, id, s.spill, s.owned, s.tasks), Parted(s, h, id, Live(h)))
  {
    assert Kept(s, h, id) && CleanKept(s, h, id) && NamesFrame(s, id);
    LeaveIds(s, h, id, s.spill);
    Leaves(s, h, id, s.spill, Live(h), s.owned, s.tasks);
  }

  /** A changed frame leaves for the spill. */
  lemma SpilledLeaves(s: State, h: History, id: nat, page: Page)
    requires Inv(s, h) && id in s.dir && s.spill.on && page == Content(s, id) && !Latched(s, s.dir[id])
    ensures Inv(Leaving(s, id, Stored(s.spill, id, page), s.owned, s.tasks), Parted(s, h, id, Live(h)))
  {
    hide FramesOk, TasksOk, LatchesOk, ClockOk, DirtyOk, TakeSlot;
    assert Kept(s, h, id) && NamesFrame(s, id);
    var spill := Stored(s.spill, id, page);
    StoredOk(s.spill, id, page);
    LeaveIds(s, h, id, spill);
    Leaves(s, h, id, spill, Live(h), s.owned, s.tasks);
  }

  lemma LeaveIds(s: State, h: History, id: nat, spill: Spill)
    requires IdsOk(s, h) && h.past != []
    ensures IdsOk(Leaving(s, id, spill, s.owned, s.tasks), Parted(s, h, id, Live(h)))
  {
    var s2, h2 := Leaving(s, id, spill, s.owned, s.tasks), Parted(s, h, id, Live(h));
    assert Live(h2) == Live(h);
    IdsStay(s, s2, h, h2, 0);
  }

  /** A freed page leaves memory and the spill, and one thread carries its id to the free list. */
  lemma FreedLeaves(s: State, h: History, t: nat, id: nat)
    requires Inv(s, h) && id in s.owned && t !in s.tasks
    ensures Inv(Leaving(s, id, Forget(s.spill, id), s.owned - {id}, s.tasks[t := Drop(id)]),
                Parted(s, h, id, Live(h) - {id}))
  {
    var spill := Forget(s.spill, id);
    ForgetOk(s.spill, id);
    FreedIds(s, h, t, id);
    if id in s.dir { NoAllocationOn(s, h, id); }
    Leaves(s, h, id, spill, Live(h) - {id}, s.owned - {id}, s.tasks[t := Drop(id)]);
  }

  /** No allocation is about to write to a page a caller holds. */
  lemma NoAllocationOn(s: State, h: History, id: nat)
    requires Inv(s, h) && id in s.owned && id in s.dir
    ensures LeavesWriter(s, s.dir[id], true)
  {
    forall t | LatchedBy(s, t, s.dir[id]) && s.tasks[t].PutLatched? ensures !s.tasks[t].newly {
      assert TaskOk(s, h, t) && NamesFrame(s, id);
      assert Between(s, t, id) ==> BetweenOk(s, t, id);
    }
  }

  lemma FreedIds(s: State, h: History, t: nat, id: nat)
    requires IdsOk(s, h) && h.past != [] && id in s.owned && t !in s.tasks
    ensures IdsOk(Leaving(s, id, Forget(s.spill, id), s.owned - {id}, s.tasks[t := Drop(id)]),
                  Parted(s, h, id, Live(h) - {id}))
  {
    var s2 := Leaving(s, id, Forget(s.spill, id), s.owned - {id}, s.tasks[t := Drop(id)]);
    var h2 := Parted(s, h, id, Live(h) - {id});
    assert Live(h2) == Live(h) - {id};
    assert IdOk(s, id);
    forall u, a ensures Between(s2, u, a) <==> Between(s, u, a) || (u == t && a == id) {}
    assert Between(s2, t, id);
    forall w ensures !Between(s, w, id) {}
    forall a: nat ensures IdOk(s2, a) {
      assert IdOk(s, a);
      if u :| Between(s, u, a) { assert Between(s2, u, a); }
    }
    forall u, a ensures BetweenOk(s2, u, a) {
      assert BetweenOk(s, u, a);
    }
  }
}
