/** The sections of a read, a write, an allocation and a deallocation, thread by thread. */
module CacheThreads {
  import opened Bytes
  import opened Distinctness
  import opened CacheState
  import opened SpillFile
  import opened CacheSteps
  import opened CacheLeave

  /** `page` is what page `id` held at some moment between `from` and now. */
  ghost predicate CurrentSince(h: History, id: nat, page: Page, from: nat) {
    exists k: nat {:trigger AsOf(h, id, page, k)} :: from <= k && AsOf(h, id, page, k)
  }

  /** Page `id` was not live at some moment between `from` and now. */
  ghost predicate AbsentSince(h: History, id: nat, from: nat) {
    exists k: nat {:trigger h.past[k]} :: from <= k < |h.past| && id !in h.past[k]
  }

  ghost predicate Reads(task: Task) {
    task.Get? || task.GetFrame? || task.GetSpilled? || task.GetImage? || task.GetLoaded?
  }

  // ----- reads

  lemma ReadStarts(s: State, h: History, t: nat, id: nat)
    requires Inv(s, h) && t !in s.tasks
    ensures Inv(WithTask(s, t, Get(id)), Began(h, t))
  {
    var s2, h2 := WithTask(s, t, Get(id)), Began(h, t);
    ThreadMoves(s, s2, h, h2, t);
  }

  /** Where `locate` finds the current copy of a page. */
  function Located(s: State, id: nat): Task {
    if id in s.dir then GetFrame(id, s.dir[id])
    else if id in s.spill.slots then GetSpilled(id, SpillCopy(s.spill, id), s.spill.slots[id].gen)
    else GetImage(id)
  }

  lemma LocatedOk(s: State, h: History, t: nat)
    requires Inv(s, h) && t in s.tasks && s.tasks[t].Get?
    ensures TaskOk(WithTask(s, t, Located(s, s.tasks[t].id)), Saw(h, t), t)
  {
    var id := s.tasks[t].id;
    assert TaskOk(s, h, t) && Kept(s, h, id) && NamesFrame(s, id) && SlotOk(s.spill, id);
  }

  lemma Locates(s: State, h: History, t: nat)
    requires Inv(s, h) && t in s.tasks && s.tasks[t].Get?
    ensures Inv(WithTask(s, t, Located(s, s.tasks[t].id)), Saw(h, t))
  {
    LocatedOk(s, h, t);
    hide Inv, TaskOk;
    ThreadMoves(s, WithTask(s, t, Located(s, s.tasks[t].id)), h, Saw(h, t), t);
  }

  /** The copy a read goes on with once its page is known not to be free. */
  function Loaded(s: State, task: Task): Option<Task> {
    match task
    case GetSpilled(id, page, gen) => Some(GetLoaded(id, page, Spilled(gen)))
    case GetImage(id) => if id in s.image then Some(GetLoaded(id, s.image[id], Image)) else None
    case _ => None
  }

  lemma Loads(s: State, h: History, t: nat)
    requires Inv(s, h) && t in s.tasks && Loaded(s, s.tasks[t]).Some?
    ensures Inv(WithTask(s, t, Loaded(s, s.tasks[t]).value), h)
  {
    var s2 := WithTask(s, t, Loaded(s, s.tasks[t]).value);
    assert TaskOk(s, h, t);
    assert TaskOk(s2, h, t);
    ThreadMoves(s, s2, h, h, t);
  }

  /** A thread that holds no page id leaves the store, or starts its read over. */
  lemma ReadEnds(s: State, h: History, t: nat, touched: set<nat>)
    requires Inv(s, h) && t in s.tasks && Reads(s.tasks[t])
    ensures Inv(Ended(s, t).(touched := touched), h)
    ensures Inv(WithTask(s, t, Get(s.tasks[t].id)), h)
  {
    hide Inv;
    BeganBefore(s, h, t);
    ThreadMoves(s, Ended(s, t).(touched := touched), h, h, t);
    ThreadMoves(s, WithTask(s, t, Get(s.tasks[t].id)), h, h, t);
  }

  lemma BeganBefore(s: State, h: History, t: nat)
    requires Inv(s, h) && t in s.tasks && Reads(s.tasks[t])
    ensures t in h.began && h.began[t] <= Now(h)
  {
    assert TaskOk(s, h, t);
  }

  /** What a held frame holds was current while the read ran, evicted meanwhile or not. */
  lemma FrameAnswers(s: State, h: History, t: nat)
    requires Inv(s, h) && t in s.tasks && s.tasks[t].GetFrame?
    ensures s.tasks[t].frame < |s.frames| && t in h.began
    ensures CurrentSince(h, s.tasks[t].id, s.frames[s.tasks[t].frame].data, h.began[t])
  {
    assert TaskOk(s, h, t);
    var id, f := s.tasks[t].id, s.tasks[t].frame;
    var page := s.frames[f].data;
    if Registered(s, f) {
      assert Kept(s, h, id);
      assert AsOf(h, id, page, Now(h));
    } else {
      assert LeftAsOf(s, h, f);
      assert AsOf(h, id, page, h.left[f]);
    }
  }

  lemma CopyAnswers(s: State, h: History, t: nat)
    requires Inv(s, h) && t in s.tasks && s.tasks[t].GetLoaded?
    ensures t in h.began && CurrentSince(h, s.tasks[t].id, s.tasks[t].page, h.began[t])
  {
    assert TaskOk(s, h, t);
    assert AsOf(h, s.tasks[t].id, s.tasks[t].page, h.seen[t]);
  }

  /** A page on the free list is not live. */
  lemma FreeIsAbsent(s: State, h: History, t: nat)
    requires Inv(s, h) && t in s.tasks && Reads(s.tasks[t]) && s.tasks[t].id in s.freeSet
    ensures t in h.began && AbsentSince(h, s.tasks[t].id, h.began[t])
  {
    BeganBefore(s, h, t);
    assert IdOk(s, s.tasks[t].id);
    assert h.past[Now(h)] == Live(h);
  }

  lemma MissingIsAbsent(s: State, h: History, t: nat)
    requires Inv(s, h) && t in s.tasks && s.tasks[t].GetImage? && s.tasks[t].id !in s.image
    ensures t in h.began && AbsentSince(h, s.tasks[t].id, h.began[t])
  {
    assert TaskOk(s, h, t);
    assert s.tasks[t].id !in h.past[h.seen[t]];
  }

  /** A copy the directory admits is the current one. */
  lemma AdmittedIsCurrent(s: State, h: History, t: nat)
    requires Inv(s, h) && t in s.tasks && s.tasks[t].GetLoaded?
    requires s.tasks[t].id !in s.dir && Admits(s.spill, s.tasks[t].id, s.tasks[t].source)
    ensures MayRegister(s, h, s.tasks[t].id, s.tasks[t].page, s.tasks[t].source.Spilled?, Live(h))
  {
    assert TaskOk(s, h, t) && Kept(s, h, s.tasks[t].id);
  }

  lemma Installs(s: State, h: History, t: nat)
    requires Inv(s, h) && t in s.tasks && s.tasks[t].GetLoaded?
    requires s.tasks[t].id !in s.dir && Admits(s.spill, s.tasks[t].id, s.tasks[t].source)
    ensures Inv(Registering(s, t, s.tasks[t].id, s.tasks[t].page, s.tasks[t].source.Spilled?, s.owned), Tell(h, Live(h)))
  {
    AdmittedIsCurrent(s, h, t);
    Registers(s, h, t, s.tasks[t].id, s.tasks[t].page, s.tasks[t].source.Spilled?, s.owned, Live(h));
  }

  // ----- writes

  lemma WriteStarts(s: State, h: History, t: nat, id: nat, page: Page)
    requires Inv(s, h) && t !in s.tasks
    ensures Inv(WithTask(s, t, Put(id, page, false)), h)
  {
    ThreadMoves(s, WithTask(s, t, Put(id, page, false)), h, h, t);
  }

  /** The same write at another point of its loop. */
  lemma WriteMoves(s: State, h: History, t: nat, task: Task)
    requires Inv(s, h) && t in s.tasks && Writes(s.tasks[t]) && Writes(task)
    requires !s.tasks[t].PutLatched? && !task.PutLatched?
    requires task.id == s.tasks[t].id && task.page == s.tasks[t].page && task.newly == s.tasks[t].newly
    requires task.PutFrame? ==> Registered(s, task.frame) && s.frames[task.frame].id == task.id
    ensures Inv(WithTask(s, t, task), h)
  {
    var s2 := WithTask(s, t, task);
    assert TaskOk(s, h, t);
    forall id ensures Between(s, t, id) <==> Between(s2, t, id) {}
    ThreadMoves(s, s2, h, h, t);
  }

  ghost function Written(h: History, owned: set<nat>, id: nat, page: Page): map<nat, Page> {
    if id in owned then Live(h)[id := page] else Live(h)
  }

  function OwnedAfter(s: State, task: Task): set<nat> {
    if Writes(task) && task.newly then s.owned + {task.id} else s.owned
  }

  lemma WriteSettles(s: State, h: History, t: nat)
    requires Inv(s, h) && t in s.tasks && Writes(s.tasks[t])
    ensures Settles(s, t, s.tasks[t].id, OwnedAfter(s, s.tasks[t]))
    ensures OwnedAfter(s, s.tasks[t]) == Written(h, OwnedAfter(s, s.tasks[t]), s.tasks[t].id, s.tasks[t].page).Keys
    ensures OnlyAt(h, Written(h, OwnedAfter(s, s.tasks[t]), s.tasks[t].id, s.tasks[t].page), s.tasks[t].id)
  {
  }

  /** The latch is taken and the frame found registered. */
  lemma LatchTaken(s: State, h: History, t: nat)
    requires Inv(s, h) && t in s.tasks && s.tasks[t].PutFrame? && Registered(s, s.tasks[t].frame) && !Latched(s, s.tasks[t].frame)
    ensures Inv(WithTask(s, t, LatchedTask(s.tasks[t])), h)
  {
    hide DirOk, SpillOk, ContentOk, FramesOk, IdsOk, ClockOk, TasksOk, DirtyIds;
    var s2 := WithTask(s, t, LatchedTask(s.tasks[t]));
    LatchedTaskOk(s, h, t);
    assert Counting(s2) == Counting(s) && Straying(s2) == Straying(s);
    SameDirtyIds(s, s2);
    OneMoreLatch(s, t);
    IdsStay(s, s2, h, h, t);
    ClockStays(s, s2, t);
    Moves(s, s2, h, h, t);
  }

  lemma SameDirtyIds(s: State, s2: State)
    requires s2.dir == s.dir && s2.frames == s.frames
    ensures DirtyIds(s2) == DirtyIds(s)
  {
    assert forall id :: IsDirty(s2, id) == IsDirty(s, id);
  }

  function LatchedTask(task: Task): Task
    requires task.PutFrame?
  {
    PutLatched(task.id, task.page, task.newly, task.frame)
  }

  lemma LatchedTaskOk(s: State, h: History, t: nat)
    requires TasksOk(s, h) && t in s.tasks && s.tasks[t].PutFrame? && Registered(s, s.tasks[t].frame)
    ensures TaskOk(WithTask(s, t, LatchedTask(s.tasks[t])), h, t)
  {
    assert TaskOk(s, h, t);
  }

  lemma OneMoreLatch(s: State, t: nat)
    requires LatchesOk(s) && t in s.tasks && s.tasks[t].PutFrame? && !Latched(s, s.tasks[t].frame)
    ensures LatchesOk(WithTask(s, t, LatchedTask(s.tasks[t])))
  {
    var s2 := WithTask(s, t, LatchedTask(s.tasks[t]));
    forall u, w, f | LatchedBy(s2, u, f) && LatchedBy(s2, w, f) ensures u == w {
      assert u != t ==> LatchedBy(s, u, f);
      assert w != t ==> LatchedBy(s, w, f);
    }
  }

  /** The live pages once a latched write is done: the page holds what was written, unless it was
      freed before the write came. */
  ghost function WrittenUnder(s: State, h: History, task: Task): map<nat, Page>
    requires task.PutLatched?
  {
    if Registered(s, task.frame) then Written(h, OwnedAfter(s, task), task.id, task.page) else Live(h)
  }

  lemma WritesFrame(s: State, h: History, t: nat)
    requires Inv(s, h) && t in s.tasks && s.tasks[t].PutLatched?
    ensures s.tasks[t].frame < |s.frames|
    ensures Inv(Rewriting(s, t, s.tasks[t].frame, s.tasks[t].page, OwnedAfter(s, s.tasks[t])), Tell(h, WrittenUnder(s, h, s.tasks[t])))
  {
    var owned := OwnedAfter(s, s.tasks[t]);
    WriteSettles(s, h, t);
    assert TaskOk(s, h, t);
    Rewrites(s, h, t, s.tasks[t].frame, s.tasks[t].id, s.tasks[t].page, owned, WrittenUnder(s, h, s.tasks[t]));
  }

  /** The frame written is counted, and the latch given back. */
  function Counted(s: State, t: nat): State { Ended(s, t).(dirtyCount := s.dirtyCount + 1) }

  lemma Counts(s: State, h: History, t: nat)
    requires Inv(s, h) && t in s.tasks && s.tasks[t].Count?
    ensures Inv(Counted(s, t), h)
  {
    hide DirOk, SpillOk, ContentOk, FramesOk, IdsOk, ClockOk, LatchesOk, TasksOk, DirtyIds;
    var s2 := Counted(s, t);
    assert Counting(s2) == Counting(s) - {t} && t in Counting(s);
    assert Straying(s2) == Straying(s);
    SameDirtyIds(s, s2);
    IdsStay(s, s2, h, h, t);
    ClockStays(s, s2, t);
    LatchesStay(s, s2, t);
    Moves(s, s2, h, h, t);
  }

  lemma WritesNew(s: State, h: History, t: nat)
    requires Inv(s, h) && t in s.tasks && s.tasks[t].PutNew? && s.tasks[t].id !in s.dir
    ensures Inv(Registering(s, t, s.tasks[t].id, s.tasks[t].page, true, OwnedAfter(s, s.tasks[t])),
                Tell(h, Written(h, OwnedAfter(s, s.tasks[t]), s.tasks[t].id, s.tasks[t].page)))
  {
    var owned := OwnedAfter(s, s.tasks[t]);
    var live := Written(h, owned, s.tasks[t].id, s.tasks[t].page);
    WriteSettles(s, h, t);
    Registers(s, h, t, s.tasks[t].id, s.tasks[t].page, true, owned, live);
  }

  // ----- page ids

  /** An id comes off the free list, or is the first never handed out: the list was empty when
      looked at, if not now (`late`). */
  function Taking(s: State, t: nat, late: bool): State {
    if s.free != [] && !late then
      var id := s.free[|s.free| - 1];
      s.(free := s.free[..|s.free| - 1], freeSet := s.freeSet - {id}, tasks := s.tasks[t := PutNew(id, Zero(), true)])
    else
      s.(nextId := s.nextId + 1, tasks := s.tasks[t := PutNew(s.nextId, Zero(), true)])
  }

  lemma TakenId(s: State, h: History, t: nat, late: bool)
    requires IdsOk(s, h) && t !in s.tasks
    ensures t in Taking(s, t, late).tasks && Taking(s, t, late).tasks[t].PutNew? && Taking(s, t, late).tasks[t].newly
    ensures var id := Taking(s, t, late).tasks[t].id; id !in s.owned && id < Taking(s, t, late).nextId && !Pending(s, id)
    ensures var id := Taking(s, t, late).tasks[t].id; Taking(s, t, late).freeSet == s.freeSet - {id}
    ensures Distinct(Taking(s, t, late).free)
    ensures forall a :: a in Taking(s, t, late).free <==> a in Taking(s, t, late).freeSet
  {
    var id := Taking(s, t, late).tasks[t].id;
    assert IdOk(s, id);
    forall u ensures !Between(s, u, id) {
      assert s.free != [] && !late ==> id in s.free;
    }
    if s.free != [] && !late {
      var last := |s.free| - 1;
      forall a ensures a in s.free[..last] <==> a in s.freeSet && a != id {
        if a in s.free && a != id {
          var i :| 0 <= i < |s.free| && s.free[i] == a;
          assert s.free[..last][i] == a;
        }
      }
    }
  }

  lemma TakingIds(s: State, h: History, t: nat, late: bool)
    requires IdsOk(s, h) && t !in s.tasks
    ensures IdsOk(Taking(s, t, late), h)
  {
    TakenId(s, h, t, late);
    var s2 := Taking(s, t, late);
    var id := s2.tasks[t].id;
    forall u, a ensures Between(s2, u, a) <==> Between(s, u, a) || (u == t && a == id) {}
    assert Between(s2, t, id);
    forall a: nat ensures IdOk(s2, a) {
      assert IdOk(s, a);
      if u :| Between(s, u, a) { assert Between(s2, u, a); }
    }
    forall u, a ensures BetweenOk(s2, u, a) {
      assert BetweenOk(s, u, a);
      assert a == id ==> !Pending(s, a);
      if a == id { forall w | w != t ensures !Between(s2, w, a) {} }
    }
  }

  lemma Takes(s: State, h: History, t: nat, late: bool)
    requires Inv(s, h) && t !in s.tasks
    ensures Inv(Taking(s, t, late), h)
  {
    hide DirOk, SpillOk, ContentOk, FramesOk, IdsOk, DirtyOk, ClockOk, LatchesOk, TasksOk;
    var s2 := Taking(s, t, late);
    TakingIds(s, h, t, late);
    DirtyStays(s, s2, h, h, t);
    ClockStays(s, s2, t);
    LatchesStay(s, s2, t);
    Moves(s, s2, h, h, t);
  }

  /** The id a deallocation carried goes on the free list, once. */
  function GivingBack(s: State, t: nat, id: nat): State {
    if id in s.freeSet then Ended(s, t)
    else Ended(s, t).(free := s.free + [id], freeSet := s.freeSet + {id})
  }

  lemma GivingBackIds(s: State, h: History, t: nat)
    requires IdsOk(s, h) && t in s.tasks && s.tasks[t].Drop?
    ensures IdsOk(GivingBack(s, t, s.tasks[t].id), h)
    ensures s.tasks[t].id !in s.freeSet
  {
    var id := s.tasks[t].id;
    var s2 := GivingBack(s, t, id);
    assert Between(s, t, id);
    assert BetweenOk(s, t, id);
    forall u, a ensures Between(s2, u, a) <==> Between(s, u, a) && u != t {}
    assert s2.free[|s.free|] == id;
    forall a: nat ensures IdOk(s2, a) {
      assert IdOk(s, a);
      if a != id {
        if u :| Between(s, u, a) { assert Between(s2, u, a); }
      }
    }
    forall u, a ensures BetweenOk(s2, u, a) { assert BetweenOk(s, u, a); }
  }

  lemma GivesBack(s: State, h: History, t: nat)
    requires Inv(s, h) && t in s.tasks && s.tasks[t].Drop?
    ensures Inv(GivingBack(s, t, s.tasks[t].id), h)
  {
    hide DirOk, SpillOk, ContentOk, FramesOk, IdsOk, DirtyOk, ClockOk, LatchesOk, TasksOk;
    var s2 := GivingBack(s, t, s.tasks[t].id);
    GivingBackIds(s, h, t);
    DirtyStays(s, s2, h, h, t);
    ClockStays(s, s2, t);
    LatchesStay(s, s2, t);
    Moves(s, s2, h, h, t);
  }
}
