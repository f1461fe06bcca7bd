/** The page store: a bounded cache over the image of the last checkpoint, with a spill file for
    changed pages that leave memory. Each method is one critical section, so that any order of
    calls is an interleaving of threads. */
module PagedStore {
  import opened Bytes
  import opened Distinctness
  import opened CacheState
  import opened SpillFile
  import opened CacheSteps
  import opened CacheLeave
  import opened CacheThreads
  import opened CacheClock
  import opened CacheImage
  import opened CacheSections
  import opened CacheCalls

  const SWEEP_LIMIT := 512
  const EVICT_RETRIES := 8

  /** The step is the end of a read of `id`. */
  ghost predicate ReadBy(s: State, h: History, step: Step, id: nat) {
    && (step.ReadFrame? || step.Load? || step.Install?)
    && step.t in s.tasks && Reads(s.tasks[step.t]) && s.tasks[step.t].id == id && step.t in h.began
  }

  /** A read in progress started with this step, or was in progress before it. */
  ghost predicate ReadOn(s: State, h: History, s2: State, h2: History, step: Step, u: nat) {
    u in s2.tasks && Reads(s2.tasks[u]) ==>
      && u in h2.began
      && (|| (step == StartRead(u, s2.tasks[u].id) && h2.began[u] == Now(h))
          || (u in s.tasks && Reads(s.tasks[u]) && s.tasks[u].id == s2.tasks[u].id && u in h.began && h2.began[u] == h.began[u]))
  }

  /** How many pages have been freed under a write since the last checkpoint. */
  ghost function StrayAfter(s: State, stray: nat, step: Step): nat {
    if Enabled(s, step) && step.Checkpoint? then 0 else stray + if FreesUnderWrite(s, step) then 1 else 0
  }

  /** What a step told its callers: the live pages are what the reply says, the answer of a read
      was current while the read ran, and only the start of a read is noted as one. */
  ghost predicate Told(s: State, h: History, h2: History, step: Step, r: Reply) {
    && h.past <= h2.past && Live(h2) == Apply(Live(h), r) && h2.stray == StrayAfter(s, h.stray, step)
    && h2.began == (if step.StartRead? && Enabled(s, step) then h.began[step.t := Now(h)] else h.began)
    && (r.Value? ==> ReadBy(s, h, step, r.id) && CurrentSince(h2, r.id, r.page, h.began[step.t]))
    && (r.NoPage? ==> ReadBy(s, h, step, r.id) && AbsentSince(h2, r.id, h.began[step.t]))
  }

  /** One moment later: the section is done, and its callers told. */
  ghost predicate Follows(s: State, h: History, s2: State, h2: History, step: Step, r: Reply) {
    |h2.past| == |h.past| + 1 && Next(h.fix, s, step, s2, r) && Told(s, h, h2, step, r)
  }

  /** How an eviction of `v` ends: nothing to do for a page no longer resident; to be tried again when
      its frame is held or changed and not to be spilled; failed when a changed page cannot be
      spilled; and otherwise only this page leaves, a changed one for the spill. */
  ghost predicate EvictedAs(s: State, s2: State, v: Victim, busy: bool, fails: bool, e: Eviction) {
    var here := v.id in s.dir && s.dir[v.id] < |s.frames|;
    var dirty := here && s.frames[s.dir[v.id]].dirty;
    var held := here && (busy || Latched(s, s.dir[v.id]) || (dirty && !v.spill));
    && (e == Busy <==> held)
    && (e == SpillFailed <==> !held && dirty && (fails || !s.spill.on))
    && s2.dir == (if e == Gone then s.dir - {v.id} else s.dir) && s2.frames == s.frames && s2.picked.None?
    && (e == Gone && dirty ==> v.id in s2.spill.slots && SpillCopy(s2.spill, v.id) == s.frames[s.dir[v.id]].data)
  }

  lemma EvictSpelled(s: State, h: History, busy: bool, fails: bool)
    requires Inv(s, h) && s.picked.Some?
    ensures EvictedAs(s, AfterEvict(s, busy, fails).0, s.picked.value, busy, fails, AfterEvict(s, busy, fails).1)
  {
    hide Latched;
    var id := s.picked.value.id;
    assert NamesFrame(s, id);
    if s.spill.on && DirtyHere(s, id) { StoredOk(s.spill, id, s.frames[s.dir[id]].data); }
    assert id !in s.dir ==> s.dir - {id} == s.dir;
  }

  /** How making room ended. */
  datatype Room = Unbounded | Made | AllDirty | NothingToEvict | Retried | SpillBroken

  class PagedStore {
    var now: State
    ghost var told: History
    const fix: Page -> Page

    ghost predicate Valid()
      reads this
    {
      Inv(now, told) && told.fix == fix
    }

    /** A store of its own, with no image. */
    constructor (fix: Page -> Page)
      ensures Valid() && this.fix == fix
      ensures told.past == [map[]] && told.stray == 0 && now == Opened(map[], [], {}, 0)
    {
      now := Opened(map[], [], {}, 0);
      told := History(fix, [map[]], map[], map[], map[], 0);
      this.fix := fix;
      new;
      OpenedOk(map[], [], {}, 0, fix);
    }

    /** A store opened on the image of a checkpoint: every id the image leaves out is free. */
    constructor Open(fix: Page -> Page, image: map<nat, Page>, count: nat)
      requires forall id :: id in image ==> id < count
      ensures Valid() && this.fix == fix
      ensures told.past == [image] && told.stray == 0 && now == Opened(image, now.free, now.freeSet, count)
      ensures forall id: nat :: id in now.freeSet <==> id < count && id !in image
    {
      var free: seq<nat>, freeSet: set<nat> := [], {};
      for id := 0 to count
        invariant Distinct(free) && forall a :: a in free <==> a in freeSet
        invariant forall a :: a in freeSet <==> 0 <= a < id && a !in image
      {
        if id !in image && id !in freeSet {
          ghost var was := free;
          free, freeSet := free + [id], freeSet + {id};
          assert free[|was|] == id;
          forall a, b | 0 <= a < b < |free| ensures free[a] != free[b] { assert was[a] in was; }
        }
      }
      now := Opened(image, free, freeSet, count);
      told := History(fix, [image], map[], map[], map[], 0);
      this.fix := fix;
      new;
      OpenedOk(image, free, freeSet, count, fix);
    }

    // ----- reading a page

    method StartRead(t: nat, id: nat)
      requires Valid() && t !in now.tasks
      modifies this
      ensures Valid() && now == WithTask(old(now), t, Get(id)) && told == Began(old(told), t)
    {
      ReadStarts(now, told, t, id);
      now := WithTask(now, t, Get(id));
      told := Began(told, t);
    }

    /** Resident, spilled, or the image: both are looked up under one hold of the directory. */
    method Locate(t: nat)
      requires Valid() && t in now.tasks && now.tasks[t].Get?
      modifies this
      ensures Valid() && now == WithTask(old(now), t, Located(old(now), old(now).tasks[t].id))
      ensures told == Saw(old(told), t)
    {
      Locates(now, told, t);
      now := WithTask(now, t, Located(now, now.tasks[t].id));
      told := Saw(told, t);
    }

    /** The read of a resident frame, evicted since it was found or not. */
    method ReadFrame(t: nat) returns (r: Reply)
      requires Valid() && t in now.tasks && now.tasks[t].GetFrame?
      modifies this
      ensures Valid() && told == old(told)
      ensures old(now).tasks[t].frame < |old(now).frames| && (now, r) == AfterRead(old(now), t)
      ensures r.Value? && t in told.began && CurrentSince(told, r.id, r.page, told.began[t])
    {
      FrameAnswers(now, told, t);
      var f := now.tasks[t].frame;
      r := Value(now.tasks[t].id, now.frames[f].data);
      ReadEnds(now, told, t, now.touched + {f});
      now := Ended(now, t).(touched := now.touched + {f});
    }

    /** The page is not resident: a free page is refused, and otherwise its copy is in hand. */
    method Load(t: nat, fails: bool) returns (r: Reply)
      requires Valid() && t in now.tasks && (now.tasks[t].GetSpilled? || now.tasks[t].GetImage?)
      modifies this
      ensures Valid() && told == old(told) && (now, r) == AfterLoad(old(now), t, fails)
      ensures r.NoPage? ==> t in told.began && AbsentSince(told, r.id, told.began[t])
    {
      var id := now.tasks[t].id;
      if id in now.freeSet {
        r := NoPage(id);
        FreeIsAbsent(now, told, t);
        ReadEnds(now, told, t, now.touched);
        now := Ended(now, t);
      } else if now.tasks[t].GetImage? && id !in now.image {
        r := NoPage(id);
        MissingIsAbsent(now, told, t);
        ReadEnds(now, told, t, now.touched);
        now := Ended(now, t);
      } else if now.tasks[t].GetImage? && fails {
        r := Failed(id);
        ReadEnds(now, told, t, now.touched);
        now := Ended(now, t);
      } else {
        r := Silent;
        Loads(now, told, t);
        now := WithTask(now, t, Loaded(now, now.tasks[t]).value);
      }
    }

    /** The copy in hand becomes the resident one, unless the page is resident by now or the copy
        is no longer the latest; then the read starts over. */
    method Install(t: nat) returns (r: Reply)
      requires Valid() && t in now.tasks && now.tasks[t].GetLoaded?
      modifies this
      ensures Valid() && (now, r) == AfterInstall(old(now), t)
      ensures told == if r.Value? then Tell(old(told), Live(old(told))) else old(told)
      ensures r.Value? ==> t in told.began && CurrentSince(told, r.id, r.page, told.began[t])
      ensures r.Value? ==> Kept(now, told, r.id)
    {
      var task := now.tasks[t];
      if task.id in now.dir || !Admits(now.spill, task.id, task.source) {
        r := Silent;
        ReadEnds(now, told, t, now.touched);
        now := WithTask(now, t, Get(task.id));
      } else {
        r := Value(task.id, task.page);
        CopyAnswers(now, told, t);
        Installs(now, told, t);
        LaterToo(told, Live(told), task.id, task.page, told.began[t]);
        now := Registering(now, t, task.id, task.page, task.source.Spilled?, now.owned);
        told := Tell(told, Live(told));
        assert Kept(now, told, task.id);
      }
    }

    // ----- writing a page

    method StartWrite(t: nat, id: nat, page: Page) returns (r: Reply)
      requires Valid() && t !in now.tasks
      modifies this
      ensures Valid() && told == old(told)
      ensures r == if id >= old(now).nextId then Refused(id) else Silent
      ensures now == if id >= old(now).nextId then old(now) else WithTask(old(now), t, Put(id, page, false))
    {
      if id >= now.nextId {
        r := Refused(id);
      } else {
        r := Silent;
        WriteStarts(now, told, t, id, page);
        now := WithTask(now, t, Put(id, page, false));
      }
    }

    method Lookup(t: nat)
      requires Valid() && t in now.tasks && now.tasks[t].Put?
      modifies this
      ensures Valid() && told == old(told)
      ensures now == WithTask(old(now), t, LookedUp(old(now), old(now).tasks[t]))
    {
      assert NamesFrame(now, now.tasks[t].id);
      WriteMoves(now, told, t, LookedUp(now, now.tasks[t]));
      now := WithTask(now, t, LookedUp(now, now.tasks[t]));
    }

    /** The frame's latch is taken and the frame looked up again: the directory is free again before
        the page is written. */
    method CheckFrame(t: nat)
      requires Valid() && t in now.tasks && now.tasks[t].PutFrame? && !Latched(now, now.tasks[t].frame)
      modifies this
      ensures Valid() && told == old(told)
      ensures now == WithTask(old(now), t, Checked(old(now), old(now).tasks[t]))
    {
      var task := now.tasks[t];
      assert TaskOk(now, told, t);
      if task.id in now.dir && now.dir[task.id] == task.frame {
        LatchTaken(now, told, t);
        now := WithTask(now, t, LatchedTask(task));
      } else {
        WriteMoves(now, told, t, Put(task.id, task.page, task.newly));
        now := WithTask(now, t, Put(task.id, task.page, task.newly));
      }
    }

    /** The write under the frame's latch: the page holds it, unless the page was freed since the
        frame was found registered. */
    method WriteFrame(t: nat) returns (r: Reply)
      requires Valid() && t in now.tasks && now.tasks[t].PutLatched?
      modifies this
      ensures Valid() && Live(told) == Apply(Live(old(told)), r) && told == Tell(old(told), Live(told))
      ensures old(now).tasks[t].frame < |old(now).frames| && (now, r) == AfterWrite(old(now), t)
      ensures var task := old(now).tasks[t];
              && task.frame < |now.frames| && now.frames[task.frame].data == task.page
              && r == if task.id !in old(now).dir || old(now).dir[task.id] != task.frame then Missed(task.id)
                      else if task.newly then Allocated(task.id) else Wrote(task.id, task.page)
    {
      var task := now.tasks[t];
      WritesFrame(now, told, t);
      AnswerApplies(now, told, t);
      assert TaskOk(now, told, t);
      assert Live(Tell(told, WrittenUnder(now, told, task))) == WrittenUnder(now, told, task);
      r := if task.id in now.dir && now.dir[task.id] == task.frame then Answer(task) else Missed(task.id);
      told := Tell(told, WrittenUnder(now, told, task));
      now := Rewriting(now, t, task.frame, task.page, OwnedAfter(now, task));
    }

    /** A frame that was clean is counted, and its latch given back. */
    method CountFrame(t: nat)
      requires Valid() && t in now.tasks && now.tasks[t].Count?
      modifies this
      ensures Valid() && told == old(told) && now == Counted(old(now), t)
    {
      Counts(now, told, t);
      now := Counted(now, t);
    }

    /** The write as a new frame, if the page is still not resident. */
    method WriteNew(t: nat) returns (r: Reply)
      requires Valid() && t in now.tasks && now.tasks[t].PutNew?
      modifies this
      ensures Valid() && Live(told) == Apply(Live(old(told)), r) && (now, r) == AfterNew(old(now), t)
      ensures told == if r.Silent? then old(told) else Tell(old(told), Live(told))
    {
      var task := now.tasks[t];
      if task.id in now.dir {
        r := Silent;
        WriteMoves(now, told, t, Put(task.id, task.page, task.newly));
        now := WithTask(now, t, Put(task.id, task.page, task.newly));
      } else {
        r := Answer(task);
        WritesNew(now, told, t);
        AnswerApplies(now, told, t);
        var owned := OwnedAfter(now, task);
        told := Tell(told, Written(told, owned, task.id, task.page));
        now := Registering(now, t, task.id, task.page, true, owned);
      }
    }

    // ----- allocating and freeing a page

    /** The last freed id, or the first never handed out; the page is zeroed next. */
    method StartAllocate(t: nat, late: bool)
      requires Valid() && t !in now.tasks
      modifies this
      ensures Valid() && told == old(told) && now == Taking(old(now), t, late)
    {
      Takes(now, told, t, late);
      now := Taking(now, t, late);
    }

    /** The page leaves memory and the spill; its id is on no list yet. */
    method StartFree(t: nat, id: nat) returns (r: Reply)
      requires Valid() && t !in now.tasks && id in now.owned
      modifies this
      ensures Valid() && told == Parted(old(now), old(told), id, Live(old(told)) - {id})
      ensures r == Freed(id) && now == AfterFree(old(now), t, id)
      ensures id !in now.dir && id !in now.spill.slots && Live(told) == Apply(Live(old(told)), r)
    {
      r := Freed(id);
      FreedLeaves(now, told, t, id);
      told := Parted(now, told, id, Live(told) - {id});
      now := AfterFree(now, t, id);
    }

    method FinishFree(t: nat)
      requires Valid() && t in now.tasks && now.tasks[t].Drop?
      modifies this
      ensures Valid() && told == old(told)
      ensures now == GivingBack(old(now), t, old(now).tasks[t].id)
      ensures now.free == old(now).free + [old(now).tasks[t].id]
    {
      GivesBack(now, told, t);
      GivingBackIds(now, told, t);
      now := GivingBack(now, t, now.tasks[t].id);
    }

    // ----- the clock

    /** A page made resident goes on the clock of a bounded cache; stale entries are dropped once
        they dominate it. */
    method PushClock(t: nat)
      requires Valid() && t in now.tasks && now.tasks[t].Tick? && now.picked.None?
      modifies this
      ensures Valid() && told == old(told)
      ensures now == Ended(old(now), t).(clock := now.clock) && TicksOver(old(now), old(now).tasks[t].id, now)
    {
      var id := now.tasks[t].id;
      var clock := now.clock;
      if now.capacity > 0 {
        clock := clock + [id];
        if |clock| > 64 && |clock| > 2 * |now.dir| {
          clock := Retain(clock, now.dir);
        }
        assert forall a :: a in now.dir && (a in now.clock || a == id) ==> a in clock;
      }
      Pushed(now, told, t, clock);
      now := Ended(now, t).(clock := clock);
    }

    /** A sweep of the clock picks the page to evict next and keeps the clock until it is evicted. */
    method Pick(limit: nat, policy: Policy, latched: set<nat>)
      requires Valid() && now.picked.None?
      modifies this
      ensures Valid() && told == old(told)
      ensures now == old(now).(clock := now.clock, touched := now.touched, picked := now.picked)
      ensures Sweeps(old(now), limit, policy, latched, now.clock, now.touched, now.picked)
    {
      var clock, touched, v := PickVictim(now, limit, policy, latched);
      Picked(now, told, clock, touched, v);
      now := now.(clock := clock, touched := touched, picked := v);
    }

    /** The picked page leaves if its frame can be latched, and it is clean or reaches the spill. */
    method Evict(busy: bool, fails: bool) returns (e: Eviction)
      requires Valid() && now.picked.Some?
      modifies this
      ensures Valid() && (now, e) == AfterEvict(old(now), busy, fails)
      ensures EvictedAs(old(now), now, old(now).picked.value, busy, fails, e)
      ensures Live(told) == Live(old(told)) && told.began == old(told).began && told.stray == old(told).stray
      ensures old(told).past <= told.past && |told.past| <= |old(told).past| + 1
    {
      hide Inv;
      EvictSpelled(now, told, busy, fails);
      var v := now.picked.value;
      if v.id !in now.dir {
        e := Gone;
        PickedGone(now, told);
        now := now.(picked := None);
      } else if busy || Latched(now, now.dir[v.id]) || (DirtyHere(now, v.id) && !v.spill) {
        e := Busy;
        PutBackOk(now, told);
        now := now.(clock := now.clock + [v.id], picked := None);
      } else if DirtyHere(now, v.id) && (fails || !now.spill.on) {
        e := SpillFailed;
        if now.spill.on {
          NotStoredKeeps(now, told, v.id);
          now := now.(spill := NotStored(now.spill, v.id));
        }
        PutBackOk(now, told);
        now := now.(clock := now.clock + [v.id], picked := None);
      } else {
        e := Gone;
        var spill := SpillAfter(now, v.id);
        VictimLeaves(now, told, v.id);
        told := Parted(now, told, v.id, Live(told));
        now := Leaving(now, v.id, spill, now.owned, now.tasks);
        PickedGone(now, told);
        now := now.(picked := None);
      }
    }

    /** One sweep and, if it picked a page, one attempt to evict it; other users of the cache hold
        any frames meanwhile. Without a pick the attempt counts as busy. */
    method EvictOne(limit: nat, policy: Policy) returns (e: Eviction, found: bool)
      requires Valid() && now.picked.None?
      modifies this
      ensures Valid() && now.picked.None? && Live(told) == Live(old(told)) && told.began == old(told).began && told.stray == old(told).stray
      ensures now.tasks == old(now).tasks && now.owned == old(now).owned && now.capacity == old(now).capacity
      ensures now.frames == old(now).frames && now.dir.Keys <= old(now).dir.Keys
      ensures e.Gone? ==> |now.dir| == |old(now).dir| - 1
      ensures !e.Gone? ==> now.dir == old(now).dir
      ensures !found ==> e.Busy?
      ensures e.SpillFailed? ==> !policy.Skip?
    {
      hide Inv, DirtyHere, Stuck, Covers, Latched, NotStored, SpillAfter;
      var latched: set<nat> := *;
      Pick(limit, policy, latched);
      e, found := Busy, now.picked.Some?;
      if found {
        var busy, fails := *, *;
        OneFewer(now.dir, now.picked.value.id);
        e := Evict(busy, fails);
      }
    }

    /** Evict until one frame is free under the capacity, or until nothing more can be done: every
        page is counted as changed and cannot be spilled, a whole sweep found every page stuck, other users
        of the cache got in the way too often, or the spill failed with every page counted as changed. The count is
        right unless a page was freed under a write since the last checkpoint. */
    method MakeRoom() returns (why: Room)
      requires Valid() && now.picked.None?
      modifies this
      ensures Valid() && now.picked.None? && Live(told) == Live(old(told)) && told.began == old(told).began && told.stray == old(told).stray
      ensures now.tasks == old(now).tasks && now.owned == old(now).owned && now.capacity == old(now).capacity
      ensures now.dir.Keys <= old(now).dir.Keys
      ensures why.Unbounded? <==> now.capacity == 0
      ensures why.Made? ==> |now.dir| < now.capacity
      ensures (why.AllDirty? || why.SpillBroken?) && told.stray == 0 ==> forall id :: id in now.dir ==> DirtyHere(now, id)
    {
      hide Inv, DirtyHere;
      if now.capacity == 0 { return Unbounded; }
      var retries, failed := 0, false;
      while true
        invariant Valid() && now.picked.None? && Live(told) == Live(old(told)) && told.began == old(told).began && told.stray == old(told).stray
        invariant now.tasks == old(now).tasks && now.owned == old(now).owned && now.capacity == old(now).capacity
        invariant now.dir.Keys <= old(now).dir.Keys
        invariant 0 <= retries <= EVICT_RETRIES
        decreases |now.dir| + (EVICT_RETRIES - retries) + (if failed then 0 else 1)
      {
        if |now.dir| < now.capacity { return Made; }
        var bounded := now.spill.on && !now.spill.failing && !failed;
        var allDirty := now.dirtyCount >= |now.dir|;
        if allDirty && told.stray == 0 { EveryDirty(now, told); }
        if !bounded && allDirty && (!now.spill.on || failed) { return AllDirty; }
        var limit := if bounded then SWEEP_LIMIT else 2 * |now.clock| + 1;
        var policy := if bounded then Fallback else if allDirty then Take else Skip;
        ghost var before := now;
        var e, found := EvictOne(limit, policy);
        if !found && !bounded { return NothingToEvict; }
        match e
        case Gone =>
        case Busy =>
          if retries == EVICT_RETRIES { return Retried; }
          retries := retries + 1;
        case SpillFailed =>
          SameDirty(before, now);
          if !bounded { return SpillBroken; }
          failed := true;
      }
    }

    method SetCapacity(frames: nat)
      requires Valid() && now.picked.None?
      modifies this
      ensures Valid() && told == old(told)
      ensures now == old(now).(capacity := frames, clock := now.clock)
      ensures forall id :: id in now.clock <==> frames > 0 && id in now.dir
    {
      var clock: seq<nat> := [];
      if frames > 0 { clock := Residents(now.dir.Keys); }
      var next := now.(capacity := frames, clock := clock);
      forall id | next.capacity > 0 && id in next.dir ensures Clocked(next, id) {}
      ClockMoves(now, next, told, 0);
      now := next;
    }

    method EnableSpill()
      requires Valid()
      modifies this
      ensures Valid() && told == old(told) && now == old(now).(spill := old(now).spill.(on := true))
    {
      SpillToggled(now.spill, true);
      SpillFails(now, now.spill.(on := true), told);
      now := now.(spill := now.spill.(on := true));
    }

    /** Has no effect once a page has been spilled. */
    method DisableSpill()
      requires Valid()
      modifies this
      ensures Valid() && told == old(told)
      ensures now == if old(now).spill.slots == map[] then old(now).(spill := old(now).spill.(on := false)) else old(now)
    {
      if now.spill.slots == map[] {
        SpillToggled(now.spill, false);
        SpillFails(now, now.spill.(on := false), told);
        now := now.(spill := now.spill.(on := false));
      }
    }

    // ----- checkpoints

    /** The pages of the next image: carried over from the current one where unchanged and stored
        in a segment of it (`carried`), and written after `fix` otherwise. */
    method MakeImage(carried: set<nat>) returns (pages: map<nat, Page>)
      requires Valid() && Quiet(now) && Idempotent(fix)
      ensures MadeFrom(now, fix, carried, pages) && Holds(told, pages)
      ensures forall id {:trigger pages[id]} :: id in pages && id in carried && id in now.image && id !in now.spill.slots ==>
                (id in now.dir ==> now.dir[id] < |now.frames| && !now.frames[now.dir[id]].dirty) ==> pages[id] == now.image[id]
    {
      pages := map[];
      LiveIds(now, told);
      for id := 0 to now.nextId
        invariant forall a: nat :: a in pages <==> a < id && a !in now.freeSet
        invariant forall a {:trigger pages[a]} :: a in pages ==> pages[a] == ImageOf(now, fix, carried, a)
        invariant forall a {:trigger pages[a]} :: a in pages ==> a in Live(told) && Alike(told, Live(told)[a], pages[a])
      {
        if id !in now.freeSet {
          ImagePage(now, told, id);
          if Unchanged(now, id) && id in carried {
            pages := pages[id := now.image[id]];
          } else {
            pages := pages[id := fix(Content(now, id))];
          }
        }
      }
    }

    /** The published image backs the store: every frame is clean, nothing is spilled, and ids that
        are neither in the image nor resident are free, which they already are. */
    method Attach(pages: map<nat, Page>)
      requires Valid() && Quiet(now) && Holds(told, pages)
      modifies this
      ensures Valid() && told == old(told).(stray := 0) && Quiet(now)
      ensures now == Attached(old(now), pages)
      ensures forall id :: id in now.owned ==> Alike(told, Content(old(now), id), Content(now, id))
    {
      var free, freeSet := now.free, now.freeSet;
      LiveIds(now, told);
      for id := 0 to now.nextId
        invariant free == now.free && freeSet == now.freeSet
      {
        if id !in pages && id !in now.dir && id !in freeSet {
          free, freeSet := free + [id], freeSet + {id};
        }
      }
      Attaches(now, told, pages);
      forall id | id in now.owned ensures Alike(told, Content(now, id), Content(Attached(now, pages), id)) {
        AttachKeepsContent(now, told, pages, id);
      }
      now := Attached(now, pages).(free := free, freeSet := freeSet);
      told := told.(stray := 0);
    }

    method Checkpoint(carried: set<nat>)
      requires Valid() && Quiet(now) && Idempotent(fix)
      modifies this
      ensures Valid() && told == old(told).(stray := 0) && Quiet(now)
      ensures MadeFrom(old(now), fix, carried, now.image) && now == Attached(old(now), now.image)
      ensures Holds(told, now.image)
    {
      var pages := MakeImage(carried);
      Attach(pages);
    }

    // ----- one call at a time

    /** A read that nobody else comes between. */
    method ReadAlone(t: nat, id: nat, fails: bool) returns (r: Reply)
      requires Valid() && t !in now.tasks && Free(now, told)
      modifies this
      ensures Valid() && Free(now, told) && Live(told) == Live(old(told)) && now.tasks == old(now).tasks
      ensures id in Live(told) ==>
                || (r.Value? && r.id == id && fix(r.page) == fix(Live(told)[id]))
                || (r == Failed(id) && fails)
    {
      hide Inv, Latched, Located, AfterRead, CurrentSince, AbsentSince, AfterLoad;
      StartRead(t, id);
      LocatedHere(old(now), now, id);
      Locate(t);
      ghost var s := now;
      if now.tasks[t].GetFrame? {
        r := ReadFrame(t);
        OnlyMoment(old(told), told, r, t);
        ReadDone(s, t);
        FreeStill(old(now), now, told);
      } else {
        r := LoadAlone(t, fails, old(now), old(told));
      }
    }

    /** The rest of a read whose page is not resident. */
    method LoadAlone(t: nat, fails: bool, ghost s0: State, ghost h0: History) returns (r: Reply)
      requires Valid() && t in now.tasks && (now.tasks[t].GetSpilled? || now.tasks[t].GetImage?)
      requires t !in s0.tasks && Free(s0, h0) && now.tasks == s0.tasks[t := now.tasks[t]] && now == s0.(tasks := now.tasks)
      requires now.tasks[t] == Located(s0, now.tasks[t].id) && told.past == h0.past && t in told.began && told.began[t] == Now(h0)
      modifies this
      ensures Valid() && Free(now, told) && Live(told) == Live(h0) && now.tasks == s0.tasks
      ensures var id := old(now).tasks[t].id;
              id in Live(told) ==> (r.Value? && r.id == id && fix(r.page) == fix(Live(told)[id])) || (r == Failed(id) && fails)
    {
      hide Inv, Latched, CurrentSince, AbsentSince, AfterLoad, AfterInstall, Located, Kept, TicksOver;
      LoadGoes(s0, now, t, fails);
      r := Load(t, fails);
      if r == Silent {
        r := InstallAlone(t, s0, h0);
      } else {
        OnlyMoment(h0, told, r, t);
        FreeStill(s0, now, told);
      }
    }

    /** The end of a read whose copy is in hand. */
    method InstallAlone(t: nat, ghost s0: State, ghost h0: History) returns (r: Reply)
      requires Valid() && t in now.tasks && now.tasks[t].GetLoaded? && t !in s0.tasks && Free(s0, h0)
      requires now.tasks == s0.tasks[t := now.tasks[t]] && now.picked.None?
      requires now.tasks[t].id !in now.dir && Admits(now.spill, now.tasks[t].id, now.tasks[t].source)
      requires told.past == h0.past && t in told.began && told.began[t] == Now(h0)
      modifies this
      ensures Valid() && Free(now, told) && Live(told) == Live(h0) && now.tasks == s0.tasks
      ensures var id := old(now).tasks[t].id;
              r.Value? && r.id == id && (id in Live(told) ==> fix(r.page) == fix(Live(told)[id]))
    {
      hide Inv, Latched, CurrentSince, AfterInstall, Kept, TicksOver;
      InstallGoes(now, t);
      r := Install(t);
      OnlyMoment(h0, told, r, t);
      PushClock(t);
      FreeStill(s0, now, told);
    }

    /** The rest of a write to a resident page. */
    method FinishResident(t: nat, ghost tasks: map<nat, Task>) returns (r: Reply)
      requires Valid() && t in now.tasks && now.tasks[t].PutFrame? && !Latched(now, now.tasks[t].frame)
      requires now.tasks[t].id in now.dir && now.dir[now.tasks[t].id] == now.tasks[t].frame
      requires t !in tasks && now.tasks == tasks[t := now.tasks[t]]
      modifies this
      ensures Valid() && now.tasks == tasks && now.picked == old(now).picked && told.past != []
      ensures var task := old(now).tasks[t];
              r == (if task.newly then Allocated(task.id) else Wrote(task.id, task.page))
      ensures Live(told) == Apply(Live(old(told)), r)
    {
      hide Inv, Latched;
      CheckFrame(t);
      r := WriteFrame(t);
      if t in now.tasks { CountFrame(t); }
    }

    /** The rest of a write to a page that is not resident. */
    method FinishAbsent(t: nat, ghost tasks: map<nat, Task>) returns (r: Reply)
      requires Valid() && t in now.tasks && now.tasks[t].PutNew? && now.tasks[t].id !in now.dir && now.picked.None?
      requires t !in tasks && now.tasks == tasks[t := now.tasks[t]]
      modifies this
      ensures Valid() && now.tasks == tasks && now.picked.None? && told.past != []
      ensures var task := old(now).tasks[t];
              r == (if task.newly then Allocated(task.id) else Wrote(task.id, task.page))
      ensures Live(told) == Apply(Live(old(told)), r)
    {
      hide Inv, TicksOver;
      r := WriteNew(t);
      PushClock(t);
    }

    /** A write that nobody else comes between. */
    method WriteAlone(t: nat, id: nat, page: Page) returns (r: Reply)
      requires Valid() && t !in now.tasks && Free(now, told)
      modifies this
      ensures Valid() && Free(now, told) && now.tasks == old(now).tasks
      ensures id in Live(old(told)) ==> r == Wrote(id, page) && Live(told) == Live(old(told))[id := page]
      ensures id !in Live(old(told)) ==> Live(told) == Live(old(told))
    {
      hide Inv, Latched;
      OwnedIds(now, told, id);
      r := StartWrite(t, id, page);
      if r != Silent { return; }
      Lookup(t);
      if now.tasks[t].PutFrame? {
        SameLatches(old(now), now, t, now.tasks[t].frame);
        r := FinishResident(t, old(now).tasks);
      } else {
        r := FinishAbsent(t, old(now).tasks);
      }
      FreeStill(old(now), now, told);
    }

    /** An allocation that nobody else comes between: the id last given back, if there is one. */
    method AllocateAlone(t: nat) returns (r: Reply)
      requires Valid() && t !in now.tasks && Free(now, told)
      modifies this
      ensures Valid() && Free(now, told) && now.tasks == old(now).tasks
      ensures r.Allocated? && r.id !in Live(old(told)) && Live(told) == Live(old(told))[r.id := Zero()]
      ensures r.id == if old(now).free == [] then old(now).nextId else old(now).free[|old(now).free| - 1]
    {
      hide Inv, Latched, Taking, TicksOver;
      NewIsNotLive(now, told, t);
      TakingGoes(now, t);
      StartAllocate(t, false);
      if now.tasks[t].id in now.dir {
        r := WriteNew(t);
        Lookup(t);
        SameLatches(old(now), now, t, now.tasks[t].frame);
        r := FinishResident(t, old(now).tasks);
      } else {
        r := FinishAbsent(t, old(now).tasks);
      }
      FreeStill(old(now), now, told);
    }

    /** Giving a page back with nobody else in the way: its id is the next to be handed out. */
    method FreeAlone(t: nat, id: nat) returns (r: Reply)
      requires Valid() && t !in now.tasks && Free(now, told) && id in Live(told)
      modifies this
      ensures Valid() && Free(now, told) && now.tasks == old(now).tasks
      ensures r == Freed(id) && Live(told) == Live(old(told)) - {id}
      ensures now.free == old(now).free + [id]
    {
      hide Inv;
      OwnedIds(now, told, id);
      r := StartFree(t, id);
      FinishFree(t);
      FreeStill(old(now), now, told);
    }

    // ----- any interleaving

    /** One section of one thread, or one move of the clock. A section whose thread is not there, or
        that waits for a latch or the clock, does nothing. */
    method Do(step: Step) returns (r: Reply)
      requires Valid() && Idempotent(fix)
      modifies this
      ensures Valid() && Follows(old(now), old(told), now, told, step, r)
    {
      hide Inv, Next, Told;
      if step.StartRead? || step.Locate? || step.ReadFrame? || step.Load? || step.Install? {
        r := DoRead(step);
      } else if step.StartWrite? || step.Lookup? || step.CheckFrame? {
        r := DoLookup(step);
      } else if step.WriteFrame? || step.CountFrame? || step.WriteNew? {
        r := DoWrite(step);
      } else if step.StartAllocate? || step.StartFree? || step.FinishFree? {
        r := DoPage(step);
      } else if step.PushClock? || step.Pick? || step.Evict? {
        r := Silent;
        DoClock(step);
      } else if step.Checkpoint? {
        r := Silent;
        DoCheckpoint(step);
      } else {
        r := Silent;
        DoSettings(step);
      }
      if |told.past| == |old(told).past| {
        Idles(now, told);
        Ticks(old(now), old(told), told, step, r);
        told := Tell(told, Live(told));
      }
    }

    method DoRead(step: Step) returns (r: Reply)
      requires Valid()
      requires step.StartRead? || step.Locate? || step.ReadFrame? || step.Load? || step.Install?
      modifies this
      ensures Valid() && |old(told).past| <= |told.past| <= |old(told).past| + 1
      ensures Next(fix, old(now), step, now, r) && Told(old(now), old(told), told, step, r)
    {
      hide Inv, Latched, Located, CurrentSince, AbsentSince;
      AllBegan(now, told);
      FramesInRange(now, told);
      r := Silent;
      match step
      case StartRead(t, id) => if t !in now.tasks { StartRead(t, id); }
      case Locate(t) => if t in now.tasks && now.tasks[t].Get? { Locate(t); }
      case ReadFrame(t) =>
        if t in now.tasks && now.tasks[t].GetFrame? && !Latched(now, now.tasks[t].frame) { r := ReadFrame(t); }
      case Load(t, fails) =>
        if t in now.tasks && (now.tasks[t].GetSpilled? || now.tasks[t].GetImage?) { r := Load(t, fails); }
      case Install(t) => if t in now.tasks && now.tasks[t].GetLoaded? { r := Install(t); }
    }

    method DoLookup(step: Step) returns (r: Reply)
      requires Valid()
      requires step.StartWrite? || step.Lookup? || step.CheckFrame?
      modifies this
      ensures Valid() && |old(told).past| <= |told.past| <= |old(told).past| + 1
      ensures Next(fix, old(now), step, now, r) && Told(old(now), old(told), told, step, r)
    {
      hide Inv, Latched, LookedUp, Checked, WithTask;
      r := Silent;
      match step
      case StartWrite(t, id, page) => if t !in now.tasks { r := StartWrite(t, id, page); }
      case Lookup(t) => if t in now.tasks && now.tasks[t].Put? { Lookup(t); }
      case CheckFrame(t) => if t in now.tasks && now.tasks[t].PutFrame? && !Latched(now, now.tasks[t].frame) { CheckFrame(t); }
    }

    method DoWrite(step: Step) returns (r: Reply)
      requires Valid()
      requires step.WriteFrame? || step.CountFrame? || step.WriteNew?
      modifies this
      ensures Valid() && |old(told).past| <= |told.past| <= |old(told).past| + 1
      ensures Next(fix, old(now), step, now, r) && Told(old(now), old(told), told, step, r)
    {
      hide Inv, Latched, Counted, WithTask, Rewriting, Registering;
      FramesInRange(now, told);
      r := Silent;
      match step
      case WriteFrame(t) => if t in now.tasks && now.tasks[t].PutLatched? { r := WriteFrame(t); }
      case CountFrame(t) => if t in now.tasks && now.tasks[t].Count? { CountFrame(t); }
      case WriteNew(t) => if t in now.tasks && now.tasks[t].PutNew? { r := WriteNew(t); }
    }

    method DoPage(step: Step) returns (r: Reply)
      requires Valid()
      requires step.StartAllocate? || step.StartFree? || step.FinishFree?
      modifies this
      ensures Valid() && |old(told).past| <= |told.past| <= |old(told).past| + 1
      ensures Next(fix, old(now), step, now, r) && Told(old(now), old(told), told, step, r)
    {
      hide Inv, WriteUnderWay, Taking, AfterFree, GivingBack;
      r := Silent;
      match step
      case StartAllocate(t, late) => if t !in now.tasks { StartAllocate(t, late); }
      case StartFree(t, id) =>
        if t !in now.tasks && id in now.owned {
          if id !in now.dir { NoWriteUnderWay(now, id); }
          r := StartFree(t, id);
        }
      case FinishFree(t) => if t in now.tasks && now.tasks[t].Drop? { FinishFree(t); }
    }

    method DoClock(step: Step)
      requires Valid()
      requires step.PushClock? || step.Pick? || step.Evict?
      modifies this
      ensures Valid() && |old(told).past| <= |told.past| <= |old(told).past| + 1
      ensures Next(fix, old(now), step, now, Silent) && Told(old(now), old(told), told, step, Silent)
    {
      hide Inv, TicksOver, Sweeps, AfterEvict;
      match step
      case PushClock(t) => if t in now.tasks && now.tasks[t].Tick? && now.picked.None? { PushClock(t); }
      case Pick(limit, policy, latched) => if now.picked.None? { Pick(limit, policy, latched); }
      case Evict(busy, fails) => if now.picked.Some? { var _ := Evict(busy, fails); }
    }

    method DoSettings(step: Step)
      requires Valid()
      requires step.SetCapacity? || step.EnableSpill? || step.DisableSpill?
      modifies this
      ensures Valid() && |old(told).past| <= |told.past| <= |old(told).past| + 1
      ensures Next(fix, old(now), step, now, Silent) && Told(old(now), old(told), told, step, Silent)
    {
      hide Inv;
      match step
      case SetCapacity(frames) => if now.picked.None? { SetCapacity(frames); }
      case EnableSpill => EnableSpill();
      case DisableSpill => DisableSpill();
    }

    method DoCheckpoint(step: Step)
      requires Valid() && Idempotent(fix) && step.Checkpoint?
      modifies this
      ensures Valid() && |old(told).past| <= |told.past| <= |old(told).past| + 1
      ensures Next(fix, old(now), step, now, Silent) && Told(old(now), old(told), told, step, Silent)
    {
      hide Inv, MadeFrom, Attached, Holds;
      if now.tasks == map[] && now.picked == None { Checkpoint(step.carried); }
    }
  }

  /** Nobody holds a latch or the clock between two sections. */
  ghost predicate Free(s: State, h: History) { s.picked.None? && h.past != [] && forall f :: !Latched(s, f) }

  lemma FreeStill(s: State, s2: State, h: History)
    requires s2.tasks == s.tasks && (forall f :: !Latched(s, f)) && s2.picked.None? && h.past != []
    ensures Free(s2, h)
  {
    forall f ensures !Latched(s2, f) { assert !Latched(s, f); }
  }

  lemma LocatedHere(s: State, s2: State, id: nat)
    requires s2 == s.(tasks := s2.tasks)
    ensures Located(s2, id) == Located(s, id)
    ensures Located(s, id).id == id && (Located(s, id).GetFrame? || Located(s, id).GetSpilled? || Located(s, id).GetImage?)
  {
  }

  lemma ReadDone(s: State, t: nat)
    requires t in s.tasks && s.tasks[t].GetFrame? && s.tasks[t].frame < |s.frames|
    ensures AfterRead(s, t).0.tasks == s.tasks - {t} && AfterRead(s, t).0.picked == s.picked && AfterRead(s, t).1.id == s.tasks[t].id
  {
  }

  lemma LoadGoes(s0: State, s: State, t: nat, fails: bool)
    requires t in s.tasks && (s.tasks[t].GetSpilled? || s.tasks[t].GetImage?)
    requires s == s0.(tasks := s.tasks) && s.tasks[t] == Located(s0, s.tasks[t].id)
    ensures var (s2, r), id := AfterLoad(s, t, fails), s.tasks[t].id;
            && (r == NoPage(id) || (r == Failed(id) && fails) || r == Silent)
            && (r != Silent ==> s2 == s.(tasks := s.tasks - {t}))
            && (r == Silent ==>
                  && t in s2.tasks && s2 == s.(tasks := s.tasks[t := s2.tasks[t]]) && s2.tasks[t].GetLoaded? && s2.tasks[t].id == id
                  && id !in s2.dir && Admits(s2.spill, id, s2.tasks[t].source))
  {
  }

  lemma InstallGoes(s: State, t: nat)
    requires t in s.tasks && s.tasks[t].GetLoaded? && s.tasks[t].id !in s.dir && Admits(s.spill, s.tasks[t].id, s.tasks[t].source)
    ensures var (s2, r), id := AfterInstall(s, t), s.tasks[t].id;
            && r == Value(id, s.tasks[t].page) && s2.tasks == s.tasks[t := Tick(id)] && s2.picked == s.picked
  {
  }

  /** All moments of a read that nobody comes between are the same. */
  lemma OnlyMoment(h0: History, h: History, r: Reply, t: nat)
    requires h0.past != [] && (h.past == h0.past || h.past == h0.past + [Live(h0)]) && t in h.began && h.began[t] == Now(h0)
    requires r.Value? ==> CurrentSince(h, r.id, r.page, h.began[t])
    requires r.NoPage? ==> AbsentSince(h, r.id, h.began[t])
    ensures Live(h) == Live(h0)
    ensures r.Value? && r.id in Live(h) ==> Alike(h, Live(h)[r.id], r.page)
    ensures r.NoPage? ==> r.id !in Live(h)
  {
  }

  lemma NewIsNotLive(s: State, h: History, t: nat)
    requires Inv(s, h) && t !in s.tasks
    ensures var id := if s.free == [] then s.nextId else s.free[|s.free| - 1]; id !in Live(h)
  {
    var id := if s.free == [] then s.nextId else s.free[|s.free| - 1];
    assert IdOk(s, id);
    assert s.free != [] ==> s.free[|s.free| - 1] in s.free;
  }

  lemma TakingGoes(s: State, t: nat)
    ensures var s2, id := Taking(s, t, false), if s.free == [] then s.nextId else s.free[|s.free| - 1];
            && s2.tasks == s.tasks[t := PutNew(id, Zero(), true)] && s2.dir == s.dir && s2.picked == s.picked && s2.frames == s.frames
  {
  }

  lemma OwnedIds(s: State, h: History, id: nat)
    requires Inv(s, h)
    ensures id in s.owned <==> id in Live(h)
    ensures id in s.owned ==> id < s.nextId
  {
    assert IdOk(s, id);
  }

  lemma SameLatches(s: State, s2: State, t: nat, f: nat)
    requires t !in s.tasks && t in s2.tasks && s2.tasks == s.tasks[t := s2.tasks[t]] && !HoldsLatch(s2.tasks[t], f) && !Latched(s, f)
    ensures !Latched(s2, f)
  {
  }

  lemma OthersStayInRead(fix: Page -> Page, s: State, step: Step, s2: State, r: Reply, u: nat)
    requires InRead(step) && Next(fix, s, step, s2, r) && u in s2.tasks && Reads(s2.tasks[u])
    ensures (u in s.tasks && s2.tasks[u] == s.tasks[u]) || OwnRead(s, step, s2, u)
  {
  }

  lemma OthersStayInWrite(fix: Page -> Page, s: State, step: Step, s2: State, r: Reply, u: nat)
    requires InWrite(step) && Next(fix, s, step, s2, r) && u in s2.tasks && Reads(s2.tasks[u])
    ensures u in s.tasks && s2.tasks[u] == s.tasks[u]
  {
  }

  lemma OthersStayElse(fix: Page -> Page, s: State, step: Step, s2: State, r: Reply, u: nat)
    requires !InRead(step) && !InWrite(step) && Next(fix, s, step, s2, r) && u in s2.tasks && Reads(s2.tasks[u])
    ensures u in s.tasks && s2.tasks[u] == s.tasks[u]
  {
  }

  /** A section leaves every thread but its own where it was. */
  lemma OthersStay(fix: Page -> Page, s: State, step: Step, s2: State, r: Reply, u: nat)
    requires Next(fix, s, step, s2, r) && u in s2.tasks && Reads(s2.tasks[u])
    ensures (u in s.tasks && s2.tasks[u] == s.tasks[u]) || OwnRead(s, step, s2, u)
  {
    hide Next, OwnRead;
    if InRead(step) { OthersStayInRead(fix, s, step, s2, r, u); }
    else if InWrite(step) { OthersStayInWrite(fix, s, step, s2, r, u); }
    else { OthersStayElse(fix, s, step, s2, r, u); }
  }

  /** The section is one of the read of thread `u`: its first, or one that reads the same page. */
  ghost predicate OwnRead(s: State, step: Step, s2: State, u: nat) {
    u in s2.tasks &&
    (|| (step == StartRead(u, s2.tasks[u].id) && Enabled(s, step))
     || ((step.Locate? || step.Load? || step.Install?) && step.t == u && u in s.tasks && Reads(s.tasks[u]) && s.tasks[u].id == s2.tasks[u].id))
  }

  lemma ReadsGoOn(s: State, h: History, s2: State, h2: History, step: Step, r: Reply, u: nat)
    requires Next(h.fix, s, step, s2, r) && Told(s, h, h2, step, r)
    requires u in s.tasks && Reads(s.tasks[u]) ==> u in h.began
    ensures ReadOn(s, h, s2, h2, step, u)
  {
    hide Next, CurrentSince, AbsentSince;
    if u in s2.tasks && Reads(s2.tasks[u]) { OthersStay(h.fix, s, step, s2, r, u); }
  }

  lemma FramesInRange(s: State, h: History)
    requires Inv(s, h)
    ensures forall t :: t in s.tasks && (s.tasks[t].GetFrame? || s.tasks[t].PutLatched?) ==> s.tasks[t].frame < |s.frames|
  {
    forall t | t in s.tasks && (s.tasks[t].GetFrame? || s.tasks[t].PutLatched?) ensures s.tasks[t].frame < |s.frames| {
      assert TaskOk(s, h, t);
    }
  }

  /** The reply to a write or an allocation is what it did to the live pages. */
  lemma AnswerApplies(s: State, h: History, t: nat)
    requires Inv(s, h) && t in s.tasks && (s.tasks[t].PutLatched? || s.tasks[t].PutNew?)
    ensures Written(h, OwnedAfter(s, s.tasks[t]), s.tasks[t].id, s.tasks[t].page) == Apply(Live(h), Answer(s.tasks[t]))
  {
    assert TaskOk(s, h, t);
  }

  lemma Pushed(s: State, h: History, t: nat, clock: seq<nat>)
    requires Inv(s, h) && t in s.tasks && s.tasks[t].Tick?
    requires s.capacity > 0 ==> forall a :: a in s.dir && (a in s.clock || a == s.tasks[t].id) ==> a in clock
    ensures Inv(Ended(s, t).(clock := clock), h)
  {
    var s2 := Ended(s, t).(clock := clock);
    forall a | s2.capacity > 0 && a in s2.dir ensures Clocked(s2, a) {
      assert Clocked(s, a);
      if u :| Ticking(s, u, a) { assert u == t || Ticking(s2, u, a); }
    }
    ClockMoves(s, s2, h, t);
  }

  lemma SpillToggled(p: Spill, on: bool)
    requires SpillOk(p) && (on || p.slots == map[])
    ensures SpillOk(p.(on := on))
  {
    var q := p.(on := on);
    forall a ensures SlotOk(q, a) { assert SlotOk(p, a); }
    forall k: nat | k < q.next ensures SlotTaken(q, k) {
      assert SlotTaken(p, k);
      if a :| UsedBy(p, k, a) { assert UsedBy(q, k, a); }
    }
  }

  method Residents(ids: set<nat>) returns (r: seq<nat>)
    ensures forall id :: id in r <==> id in ids
  {
    r := [];
    var left := ids;
    while left != {}
      invariant left <= ids
      invariant forall id :: id in r <==> id in ids && id !in left
    {
      var id :| id in left;
      left := left - {id};
      r := r + [id];
      assert r[|r| - 1] == id;
    }
  }

  /** When the count of changed frames reaches the number of frames, every frame is changed. */
  lemma EveryDirty(s: State, h: History)
    requires Inv(s, h) && s.dirtyCount >= |s.dir| && h.stray == 0
    ensures forall id :: id in s.dir ==> DirtyHere(s, id)
  {
    NoMore(DirtyIds(s), s.dir.Keys);
    assert |s.dir.Keys| == |s.dir|;
    forall id | id in s.dir ensures DirtyHere(s, id) { assert id in DirtyIds(s); }
  }

  lemma VictimLeaves(s: State, h: History, id: nat)
    requires Inv(s, h) && id in s.dir && (DirtyHere(s, id) ==> s.spill.on) && !Latched(s, s.dir[id])
    ensures Inv(Leaving(s, id, SpillAfter(s, id), s.owned, s.tasks), Parted(s, h, id, Live(h)))
    ensures Live(Parted(s, h, id, Live(h))) == Live(h) && Parted(s, h, id, Live(h)).stray == h.stray
  {
    assert NamesFrame(s, id);
    if DirtyHere(s, id) { SpilledLeaves(s, h, id, s.frames[s.dir[id]].data); } else { CleanLeaves(s, h, id); }
  }

  lemma NotStoredKeeps(s: State, h: History, id: nat)
    requires Inv(s, h)
    ensures Inv(s.(spill := NotStored(s.spill, id)), h)
    ensures NotStored(s.spill, id).on == s.spill.on
  {
    NotStoredOk(s.spill, id);
    SpillFails(s, NotStored(s.spill, id), h);
  }

  lemma Picked(s: State, h: History, clock: seq<nat>, touched: set<nat>, v: Option<Victim>)
    requires Inv(s, h) && s.picked.None?
    requires Covers(s, clock, if v.Some? then Some(v.value.id) else None)
    ensures Inv(s.(clock := clock, touched := touched, picked := v), h)
  {
    var s2 := s.(clock := clock, touched := touched, picked := v);
    forall id | s2.capacity > 0 && id in s2.dir ensures Clocked(s2, id) {
      assert Clocked(s, id);
      if u :| Ticking(s, u, id) { assert Ticking(s2, u, id); }
    }
    ClockMoves(s, s2, h, 0);
  }

  lemma OneFewer(dir: map<nat, nat>, id: nat)
    requires id in dir
    ensures |dir - {id}| == |dir| - 1
  {
    assert (dir - {id}).Keys == dir.Keys - {id};
    assert |dir.Keys| == |dir| && |(dir - {id}).Keys| == |dir - {id}|;
  }

  lemma SameDirty(s: State, s2: State)
    requires s2.dir == s.dir && s2.frames == s.frames
    ensures forall id :: DirtyHere(s2, id) == DirtyHere(s, id)
  {
  }

  lemma PickedGone(s: State, h: History)
    requires Inv(s, h) && s.picked.Some? && s.picked.value.id !in s.dir
    ensures Inv(s.(picked := None), h)
  {
    var s2 := s.(picked := None);
    forall id | s2.capacity > 0 && id in s2.dir ensures Clocked(s2, id) {
      assert Clocked(s, id);
      if u :| Ticking(s, u, id) { assert Ticking(s2, u, id); }
    }
    ClockMoves(s, s2, h, 0);
  }

  lemma PutBackOk(s: State, h: History)
    requires Inv(s, h) && s.picked.Some?
    ensures Inv(s.(clock := s.clock + [s.picked.value.id], picked := None), h)
  {
    var s2 := s.(clock := s.clock + [s.picked.value.id], picked := None);
    forall id | s2.capacity > 0 && id in s2.dir ensures Clocked(s2, id) {
      assert Clocked(s, id);
      if u :| Ticking(s, u, id) { assert Ticking(s2, u, id); }
    }
    ClockMoves(s, s2, h, 0);
  }

  /** A moment at which nothing changes. */
  lemma Idles(s: State, h: History)
    requires Inv(s, h)
    ensures Inv(s, Tell(h, Live(h)))
  {
    var h2 := Tell(h, Live(h));
    assert Live(h2) == Live(h);
    IdsStay(s, s, h, h2, 0);
    forall id ensures Kept(s, h2, id) { assert Kept(s, h, id); }
    forall id ensures CleanKept(s, h2, id) { assert CleanKept(s, h, id); }
    forall f: nat ensures LeftAsOf(s, h2, f) { assert LeftAsOf(s, h, f); }
    forall t ensures TaskOk(s, h2, t) { assert TaskOk(s, h, t); }
  }

  lemma AllBegan(s: State, h: History)
    requires Inv(s, h)
    ensures forall u :: u in s.tasks && Reads(s.tasks[u]) ==> u in h.began
  {
    forall u | u in s.tasks && Reads(s.tasks[u]) ensures u in h.began { BeganBefore(s, h, u); }
  }

  lemma Ticks(s: State, h: History, h2: History, step: Step, r: Reply)
    requires Told(s, h, h2, step, r)
    ensures Told(s, h, Tell(h2, Live(h2)), step, r)
  {
    hide Enabled, StrayAfter;
    var h3 := Tell(h2, Live(h2));
    if r.Value? { LaterToo(h2, Live(h2), r.id, r.page, h.began[step.t]); }
    if r.NoPage? {
      var k: nat :| h.began[step.t] <= k < |h2.past| && r.id !in h2.past[k];
      assert r.id !in h3.past[k];
    }
  }

  lemma LaterToo(h: History, live: map<nat, Page>, id: nat, page: Page, from: nat)
    requires CurrentSince(h, id, page, from)
    ensures CurrentSince(Tell(h, live), id, page, from)
  {
    var k: nat :| from <= k && AsOf(h, id, page, k);
    assert AsOf(Tell(h, live), id, page, k);
  }

  // ----- whole runs

  /** The live pages after these replies, from an image: what a store without a cache would hold. */
  function Contents(image: map<nat, Page>, replies: seq<Reply>): map<nat, Page> {
    if replies == [] then image
    else Apply(Contents(image, replies[..|replies| - 1]), replies[|replies| - 1])
  }

  /** Moment `k` lies within the read that step `i` answered, which step `j` had started. */
  ghost predicate During(steps: seq<Step>, i: nat, id: nat, j: nat, k: nat) {
    && j <= k <= i + 1 && j <= i < |steps|
    && (steps[i].ReadFrame? || steps[i].Load? || steps[i].Install?)
    && steps[j] == StartRead(steps[i].t, id)
  }

  /** The answer to a read is what the page held at some moment of the read, up to `fix`, or the
      page was not live then; a read is told there is no page only if there was none at some
      moment of the read. */
  ghost predicate Answered(fix: Page -> Page, past: seq<map<nat, Page>>, steps: seq<Step>, i: nat, r: Reply) {
    && (r.Value? ==> exists j: nat, k: nat {:trigger During(steps, i, r.id, j, k)} ::
          During(steps, i, r.id, j, k) && k < |past| && (r.id in past[k] ==> fix(past[k][r.id]) == fix(r.page)))
    && (r.NoPage? ==> exists j: nat, k: nat {:trigger During(steps, i, r.id, j, k)} ::
          During(steps, i, r.id, j, k) && k < |past| && r.id !in past[k])
  }

  /** A read in progress was started by the step its history names. */
  ghost predicate Tracked(s: State, h: History, steps: seq<Step>, n: nat, u: nat) {
    u in s.tasks && Reads(s.tasks[u]) ==>
      u in h.began && h.began[u] < n <= |steps| && steps[h.began[u]] == StartRead(u, s.tasks[u].id)
  }

  ghost predicate AllTracked(s: State, h: History, steps: seq<Step>, n: nat) {
    forall u {:trigger Tracked(s, h, steps, n, u)} :: Tracked(s, h, steps, n, u)
  }

  lemma AllStayTracked(s: State, h: History, s2: State, h2: History, steps: seq<Step>, n: nat, r: Reply)
    requires n < |steps| && Now(h) == n && AllTracked(s, h, steps, n)
    requires Follows(s, h, s2, h2, steps[n], r)
    ensures AllTracked(s2, h2, steps, n + 1)
  {
    hide Next, Told;
    var m := n + 1;
    forall u ensures Tracked(s2, h2, steps, m, u) {
      assert Tracked(s, h, steps, n, u);
      ReadsGoOn(s, h, s2, h2, steps[n], r, u);
    }
  }

  lemma StepAnswers(s: State, h: History, s2: State, h2: History, steps: seq<Step>, n: nat, r: Reply)
    requires n < |steps| && |h.past| == n + 1 && Follows(s, h, s2, h2, steps[n], r)
    requires AllTracked(s, h, steps, n)
    ensures Answered(h2.fix, h2.past, steps, n, r)
  {
    hide Next;
    if r.Value? {
      var t := steps[n].t;
      assert Tracked(s, h, steps, n, t);
      var k: nat :| h.began[t] <= k && AsOf(h2, r.id, r.page, k);
      assert During(steps, n, r.id, h.began[t], k);
    } else if r.NoPage? {
      var t := steps[n].t;
      assert Tracked(s, h, steps, n, t);
      var k: nat :| h.began[t] <= k < |h2.past| && r.id !in h2.past[k];
      assert During(steps, n, r.id, h.began[t], k);
    }
  }

  lemma AnsweredLater(fix: Page -> Page, past: seq<map<nat, Page>>, past2: seq<map<nat, Page>>, steps: seq<Step>, i: nat, r: Reply)
    requires past <= past2 && Answered(fix, past, steps, i, r)
    ensures Answered(fix, past2, steps, i, r)
  {
    if r.Value? {
      var j: nat, k: nat :| During(steps, i, r.id, j, k) && k < |past| && (r.id in past[k] ==> fix(past[k][r.id]) == fix(r.page));
      assert During(steps, i, r.id, j, k) && past2[k] == past[k];
    } else if r.NoPage? {
      var j: nat, k: nat :| During(steps, i, r.id, j, k) && k < |past| && r.id !in past[k];
      assert During(steps, i, r.id, j, k) && past2[k] == past[k];
    }
  }

  /** How many pages were freed under a write since the last checkpoint, `n` steps into a run. */
  ghost function Drift(states: seq<State>, steps: seq<Step>, n: nat): nat
    requires n <= |steps| && n <= |states|
  {
    if n == 0 then 0 else StrayAfter(states[n - 1], Drift(states, steps, n - 1), steps[n - 1])
  }

  /** Exactly when nothing has drifted: every free under a write has a checkpoint after it. */
  lemma {:induction false} NoDrift(states: seq<State>, steps: seq<Step>, n: nat)
    requires n <= |steps| && n <= |states|
    ensures Drift(states, steps, n) == 0 <==>
              forall i {:trigger FreesAt(states, steps, i)} :: 0 <= i < n && FreesAt(states, steps, i) ==>
                exists j {:trigger ChecksAt(states, steps, j)} :: i < j < n && ChecksAt(states, steps, j)
  {
    if n > 0 {
      NoDrift(states, steps, n - 1);
      var m := n - 1;
      assert FreesAt(states, steps, m) <==> FreesUnderWrite(states[m], steps[m]);
      assert ChecksAt(states, steps, m) <==> Enabled(states[m], steps[m]) && steps[m].Checkpoint?;
      if !ChecksAt(states, steps, m) && !FreesAt(states, steps, m) {
        if forall i {:trigger FreesAt(states, steps, i)} :: 0 <= i < m && FreesAt(states, steps, i) ==>
             exists j {:trigger ChecksAt(states, steps, j)} :: i < j < m && ChecksAt(states, steps, j) {
          forall i | 0 <= i < n && FreesAt(states, steps, i)
            ensures exists j {:trigger ChecksAt(states, steps, j)} :: i < j < n && ChecksAt(states, steps, j)
          {
            var j :| i < j < m && ChecksAt(states, steps, j);
          }
        } else {
          var i :| 0 <= i < m && FreesAt(states, steps, i) &&
            !exists j {:trigger ChecksAt(states, steps, j)} :: i < j < m && ChecksAt(states, steps, j);
          assert !exists j {:trigger ChecksAt(states, steps, j)} :: i < j < n && ChecksAt(states, steps, j);
        }
      }
    }
  }

  ghost predicate FreesAt(states: seq<State>, steps: seq<Step>, i: int) {
    0 <= i < |states| && i < |steps| && FreesUnderWrite(states[i], steps[i])
  }

  ghost predicate ChecksAt(states: seq<State>, steps: seq<Step>, i: int) {
    0 <= i < |states| && i < |steps| && Enabled(states[i], steps[i]) && steps[i].Checkpoint?
  }

  /** Whenever no thread is inside the store, the dirty count is the number of changed frames and of
      the pages freed under a write since the last checkpoint. */
  ghost predicate Accounted(states: seq<State>, steps: seq<Step>, n: nat) {
    n < |states| && n <= |steps| &&
    (Quiet(states[n]) ==> states[n].dirtyCount == |DirtyIds(states[n])| + Drift(states, steps, n))
  }

  /** Any interleaving of reads, writes, allocations, deallocations, evictions, spills and
      checkpoints, on a store opened on an image. The moments are those of a store that holds
      every live page and has no cache, and every read is answered from one of its own moments. */
  method Run(fix: Page -> Page, image: map<nat, Page>, count: nat, steps: seq<Step>)
    returns (replies: seq<Reply>, ghost past: seq<map<nat, Page>>, ghost states: seq<State>)
    requires Idempotent(fix)
    requires forall id :: id in image ==> id < count
    ensures |replies| == |steps| && |past| == |states| == |steps| + 1
    ensures states[0] == Opened(image, states[0].free, states[0].freeSet, count)
    ensures forall i {:trigger replies[i]} :: 0 <= i < |steps| ==> Next(fix, states[i], steps[i], states[i + 1], replies[i])
    ensures forall k :: 0 <= k <= |steps| ==> past[k] == Contents(image, replies[..k])
    ensures forall i :: 0 <= i < |steps| ==> Answered(fix, past, steps, i, replies[i])
    ensures forall n {:trigger Accounted(states, steps, n)} :: 0 <= n <= |steps| ==> Accounted(states, steps, n)
    ensures forall i: nat {:trigger Justified(past, steps, replies, i)} :: i < |steps| ==> Justified(past, steps, replies, i)
    ensures forall i: nat, u: nat {:trigger KeptAt(states, steps, replies, i, u)} ::
              i < |steps| ==> KeptAt(states, steps, replies, i, u)
  {
    hide Inv, Follows, RunKnown;
    var store := new PagedStore.Open(fix, image, count);
    replies := [];
    past, states := store.told.past, [store.now];
    NothingRun(store.now, store.told, image, count, steps);
    for n := 0 to |steps|
      invariant store.Valid() && store.fix == fix && fresh(store)
      invariant past == store.told.past && |states| == n + 1 && states[n] == store.now && |replies| == n
      invariant RunKnown(store.told, image, count, steps, n, replies, states)
    {
      ghost var h, was, seen := store.told, replies, states;
      var r := store.Do(steps[n]);
      RunOn(h, store.now, store.told, image, count, steps, n, was, r, seen);
      replies := replies + [r];
      past, states := store.told.past, states + [store.now];
    }
    RunTold(store.told, image, count, steps, replies, states);
  }

  /** What is known of a run after `n` steps. */
  ghost predicate RunKnown(h: History, image: map<nat, Page>, count: nat, steps: seq<Step>, n: nat, replies: seq<Reply>, states: seq<State>) {
    && |replies| == n <= |steps| && |h.past| == |states| == n + 1
    && states[0] == Opened(image, states[0].free, states[0].freeSet, count)
    && (forall i {:trigger replies[i]} :: 0 <= i < n ==> Next(h.fix, states[i], steps[i], states[i + 1], replies[i]))
    && (forall k :: 0 <= k <= n ==> h.past[k] == Contents(image, replies[..k]))
    && (forall i :: 0 <= i < n ==> Answered(h.fix, h.past, steps, i, replies[i]))
    && AllTracked(states[n], h, steps, n) && h.stray == Drift(states, steps, n)
    && (forall m {:trigger Accounted(states, steps, m)} :: 0 <= m <= n ==> Accounted(states, steps, m))
    && CallsKnown(states[n], h.past, steps, replies, n)
  }

  lemma NothingRun(s: State, h: History, image: map<nat, Page>, count: nat, steps: seq<Step>)
    requires Inv(s, h) && s.tasks == map[] && h.past == [image] && h.stray == 0 && s == Opened(image, s.free, s.freeSet, count)
    ensures RunKnown(h, image, count, steps, 0, [], [s])
  {
    hide Inv, Answered, Next, Accounted, CallsKnown, Drift;
    NoneYet([s], steps, h);
    NoCallsYet(s, h, steps);
  }

  lemma RunOn(h: History, s2: State, h2: History, image: map<nat, Page>, count: nat, steps: seq<Step>, n: nat,
              was: seq<Reply>, r: Reply, seen: seq<State>)
    requires n < |steps| && RunKnown(h, image, count, steps, n, was, seen)
    requires Inv(seen[n], h) && Inv(s2, h2) && h2.fix == h.fix && Follows(seen[n], h, s2, h2, steps[n], r)
    ensures RunKnown(h2, image, count, steps, n + 1, was + [r], seen + [s2])
  {
    hide Inv, Answered, Follows, Next, Drift, Accounted, CallsKnown, AllTracked;
    var s, replies, states := seen[n], was + [r], seen + [s2];
    StepAnswers(s, h, s2, h2, steps, n, r);
    AllStayTracked(s, h, s2, h2, steps, n, r);
    FollowsPast(s, h, s2, h2, steps[n], r);
    Extends(image, was, r, h.past, h2.past, n);
    forall i | 0 <= i < n ensures Answered(h.fix, h2.past, steps, i, replies[i]) {
      AnsweredLater(h.fix, h.past, h2.past, steps, i, was[i]);
    }
    forall i | 0 <= i < n + 1 ensures Next(h.fix, states[i], steps[i], states[i + 1], replies[i]) {
      if i < n { assert replies[i] == was[i]; }
    }
    DriftOn(seen, s2, steps, n, h.stray, h2);
    CallsOn(s, h, s2, h2, steps, was, r, n);
  }

  lemma RunTold(h: History, image: map<nat, Page>, count: nat, steps: seq<Step>, replies: seq<Reply>, states: seq<State>)
    requires RunKnown(h, image, count, steps, |steps|, replies, states)
    ensures |replies| == |steps| && |h.past| == |states| == |steps| + 1
    ensures states[0] == Opened(image, states[0].free, states[0].freeSet, count)
    ensures forall i {:trigger replies[i]} :: 0 <= i < |steps| ==> Next(h.fix, states[i], steps[i], states[i + 1], replies[i])
    ensures forall k :: 0 <= k <= |steps| ==> h.past[k] == Contents(image, replies[..k])
    ensures forall i :: 0 <= i < |steps| ==> Answered(h.fix, h.past, steps, i, replies[i])
    ensures forall n {:trigger Accounted(states, steps, n)} :: 0 <= n <= |steps| ==> Accounted(states, steps, n)
    ensures forall i: nat {:trigger Justified(h.past, steps, replies, i)} :: i < |steps| ==> Justified(h.past, steps, replies, i)
    ensures forall i: nat, u: nat {:trigger KeptAt(states, steps, replies, i, u)} :: i < |steps| ==> KeptAt(states, steps, replies, i, u)
  {
    hide Answered, Next, Accounted, Justified, NotDropped, CallsKnown, AllTracked;
    AllJustified(states[|steps|], h.past, steps, replies);
    forall i: nat, u: nat | i < |steps| ensures KeptAt(states, steps, replies, i, u) {
      NothingDropped(h.fix, states[i], steps[i], states[i + 1], replies[i], u);
    }
  }

  /** Step `i` drops no call of thread `u`. */
  ghost predicate KeptAt(states: seq<State>, steps: seq<Step>, replies: seq<Reply>, i: nat, u: nat) {
    i + 1 < |states| && i < |steps| && i < |replies| && NotDropped(states[i], steps[i], states[i + 1], replies[i], u)
  }

  /** The calls under way are known after `n` steps, and every reply so far is one to its call. */
  ghost predicate CallsKnown(s: State, past: seq<map<nat, Page>>, steps: seq<Step>, replies: seq<Reply>, n: nat) {
    && AllTraced(s, past, steps, replies, n) && Below(past, s.nextId)
    && forall i: nat {:trigger Justified(past, steps, replies, i)} :: i < n ==> Justified(past, steps, replies, i)
  }

  lemma AllJustified(s: State, past: seq<map<nat, Page>>, steps: seq<Step>, replies: seq<Reply>)
    requires CallsKnown(s, past, steps, replies, |steps|)
    ensures forall i: nat {:trigger Justified(past, steps, replies, i)} :: i < |steps| ==> Justified(past, steps, replies, i)
  {
  }

  lemma CallsOn(s: State, h: History, s2: State, h2: History, steps: seq<Step>, was: seq<Reply>, r: Reply, n: nat)
    requires |was| == n < |steps| && |h.past| == n + 1 && Inv(s, h) && Inv(s2, h2)
    requires Follows(s, h, s2, h2, steps[n], r) && CallsKnown(s, h.past, steps, was, n)
    ensures CallsKnown(s2, h2.past, steps, was + [r], n + 1)
  {
    hide Inv, Next, Justified, AllTraced, Below, StrayAfter;
    var past := h.past;
    FollowsPast(s, h, s2, h2, steps[n], r);
    assert h2.past == past + [Live(h2)];
    AllStayTraced(h.fix, s, s2, past, h2.past, steps, was, r, n);
    BelowStays(h.fix, s, steps[n], s2, r, h2, past);
    StepJustified(h.fix, s, h, s2, past, steps, was, r, n);
    JustifiedEarlier(past, h2.past, steps, was + [r], n);
    var all := was + [r];
    forall i: nat | i < n + 1 ensures Justified(h2.past, steps, all, i) {
      if i < n { JustifiedLater(past, h2.past, steps, was, r, i); }
    }
  }

  lemma NoCallsYet(s: State, h: History, steps: seq<Step>)
    requires Inv(s, h) && s.tasks == map[] && |h.past| == 1
    ensures CallsKnown(s, h.past, steps, [], 0)
  {
    forall id: nat | id in h.past[0] ensures id < s.nextId { assert IdOk(s, id); }
  }

  lemma NoneYet(states: seq<State>, steps: seq<Step>, h: History)
    requires |states| == 1 && Inv(states[0], h) && h.stray == 0
    ensures Drift(states, steps, 0) == 0 && Accounted(states, steps, 0)
  {
    if Quiet(states[0]) { QuietAccounts(states[0], h); }
  }

  lemma {:induction false} DriftSame(seen: seq<State>, s: State, steps: seq<Step>, n: nat)
    requires n <= |steps| && n <= |seen|
    ensures Drift(seen + [s], steps, n) == Drift(seen, steps, n)
  {
    if n > 0 { DriftSame(seen, s, steps, n - 1); }
  }

  lemma DriftOn(seen: seq<State>, s: State, steps: seq<Step>, n: nat, stray: nat, h: History)
    requires |seen| == n + 1 <= |steps| && stray == Drift(seen, steps, n) && Inv(s, h)
    requires h.stray == StrayAfter(seen[n], stray, steps[n])
    requires forall m {:trigger Accounted(seen, steps, m)} :: 0 <= m <= n ==> Accounted(seen, steps, m)
    ensures h.stray == Drift(seen + [s], steps, n + 1)
    ensures forall m {:trigger Accounted(seen + [s], steps, m)} :: 0 <= m <= n + 1 ==> Accounted(seen + [s], steps, m)
  {
    hide Inv, StrayAfter;
    var states := seen + [s];
    DriftSame(seen, s, steps, n);
    assert Drift(states, steps, n + 1) == StrayAfter(states[n], Drift(states, steps, n), steps[n]);
    forall m | 0 <= m <= n + 1 ensures Accounted(states, steps, m) {
      if m <= n { DriftSame(seen, s, steps, m); assert Accounted(seen, steps, m); }
      else if Quiet(s) { QuietAccounts(s, h); }
    }
  }

  lemma FollowsPast(s: State, h: History, s2: State, h2: History, step: Step, r: Reply)
    requires Follows(s, h, s2, h2, step, r)
    ensures h.past <= h2.past && |h2.past| == |h.past| + 1 && h2.past[|h.past|] == Apply(Live(h), r)
    ensures Next(h.fix, s, step, s2, r) && h2.stray == StrayAfter(s, h.stray, step)
  {
    hide Next, StrayAfter;
  }

  lemma Extends(image: map<nat, Page>, was: seq<Reply>, r: Reply, before: seq<map<nat, Page>>, past: seq<map<nat, Page>>, n: nat)
    requires |was| == n && |before| == n + 1 && |past| == n + 2 && before <= past
    requires past[n + 1] == Apply(before[n], r)
    requires forall k :: 0 <= k <= n ==> before[k] == Contents(image, was[..k])
    ensures forall k :: 0 <= k <= n + 1 ==> past[k] == Contents(image, (was + [r])[..k])
  {
    forall k | 0 <= k <= n + 1 ensures past[k] == Contents(image, (was + [r])[..k]) {
      if k <= n {
        assert (was + [r])[..k] == was[..k];
      } else {
        assert (was + [r])[..k] == was + [r];
        assert (was + [r])[..n] == was && was[..n] == was;
      }
    }
  }

  // ----- one call at a time

  datatype PageCall = ReadCall(id: nat) | WriteCall(id: nat, page: Page) | AllocateCall | FreeCall(id: nat)

  /** What a store of pages without a cache does: a live page reads as it was last written, up to the
      rewriting an image may apply; writing a page that is not live changes nothing; a page handed out
      is new and all zeros; and a page given back is no longer there. */
  ghost predicate Serves(fix: Page -> Page, live: map<nat, Page>, call: PageCall, r: Reply, after: map<nat, Page>) {
    match call
    case ReadCall(id) => after == live && (id in live ==> r.Value? && r.id == id && fix(r.page) == fix(live[id]))
    case WriteCall(id, page) =>
      if id in live then r == Wrote(id, page) && after == live[id := page] else after == live
    case AllocateCall => r.Allocated? && r.id !in live && after == live[r.id := Zero()]
    case FreeCall(id) => if id in live then r == Freed(id) && after == live - {id} else after == live
  }

  /** Calls made one after the other, from an image on, are served as by a store without a cache. */
  method RunAlone(fix: Page -> Page, image: map<nat, Page>, count: nat, calls: seq<PageCall>)
    returns (replies: seq<Reply>, ghost lives: seq<map<nat, Page>>)
    requires forall id :: id in image ==> id < count
    ensures |replies| == |calls| && |lives| == |calls| + 1 && lives[0] == image
    ensures forall i {:trigger calls[i]} :: 0 <= i < |calls| ==> Serves(fix, lives[i], calls[i], replies[i], lives[i + 1])
  {
    hide Inv, Latched, Serves;
    var store := new PagedStore.Open(fix, image, count);
    NoLatch(store.now);
    replies, lives := [], [image];
    for n := 0 to |calls|
      invariant store.Valid() && fresh(store) && store.fix == fix && store.now.tasks == map[] && Free(store.now, store.told)
      invariant |replies| == n && |lives| == n + 1 && lives[0] == image && lives[n] == Live(store.told)
      invariant forall i {:trigger calls[i]} :: 0 <= i < n ==> Serves(fix, lives[i], calls[i], replies[i], lives[i + 1])
    {
      var r := Serve(store, calls[n]);
      replies, lives := replies + [r], lives + [Live(store.told)];
    }
  }

  method Serve(store: PagedStore, call: PageCall) returns (r: Reply)
    requires store.Valid() && store.now.tasks == map[] && Free(store.now, store.told)
    modifies store
    ensures store.Valid() && store.now.tasks == map[] && Free(store.now, store.told)
    ensures Serves(store.fix, Live(old(store.told)), call, r, Live(store.told))
  {
    hide Inv, Latched, Free;
    match call
    case ReadCall(id) => r := store.ReadAlone(0, id, false);
    case WriteCall(id, page) => r := store.WriteAlone(0, id, page);
    case AllocateCall => r := store.AllocateAlone(0);
    case FreeCall(id) =>
      OwnedIds(store.now, store.told, id);
      if id in store.now.owned { r := store.FreeAlone(0, id); } else { r := Silent; }
  }

  lemma NoLatch(s: State)
    requires s.tasks == map[]
    ensures forall f :: !Latched(s, f)
  {
  }

  // ----- where the dirty count drifts

  /** Page 0 is resident and clean, and thread 1 is between finding its frame registered and writing
      to it. */
  method WriteUnderWayOnPage0(page: Page) returns (store: PagedStore)
    ensures fresh(store) && store.Valid() && 0 in store.now.owned && store.now.dir == map[0 := 0]
    ensures store.now.frames == [Frame(0, Zero(), false)] && store.now.dirtyCount == 0 && store.now.picked.None?
    ensures store.now.tasks == map[1 := PutLatched(0, page, false, 0)] && store.told.stray == 0 && store.now.capacity == 0
    ensures store.now.spill.slots == map[]
  {
    hide Inv, CurrentSince, Kept, Alike;
    store := new PagedStore.Open(p => p, map[0 := Zero()], 1);
    store.StartRead(0, 0);
    store.Locate(0);
    var r := store.Load(0, false);
    r := store.Install(0);
    store.PushClock(0);
    r := store.StartWrite(1, 0, page);
    store.Lookup(1);
    store.CheckFrame(1);
  }

  /** The page is freed under the write: both threads leave, no frame is left, and the count says
      that one is changed. */
  method FreedUnderWrite(page: Page) returns (store: PagedStore)
    ensures Quiet(store.now) && store.now.dir == map[] && store.now.dirtyCount == 1 == store.told.stray
  {
    hide Inv, Straying, Alike;
    store := WriteUnderWayOnPage0(page);
    assert 1 in store.now.tasks && store.now.tasks[1].PutLatched? && store.now.tasks[1].frame == store.now.dir[0];
    assert WriteUnderWay(store.now, 0);
    var r := store.StartFree(2, 0);
    store.FinishFree(2);
    r := store.WriteFrame(1);
    store.CountFrame(1);
  }

  /** The same two calls the other way round leave the count right. */
  method FreedAfterWrite(page: Page) returns (store: PagedStore)
    ensures Quiet(store.now) && store.now.dir == map[] && store.now.dirtyCount == 0
  {
    hide Inv, Straying, Alike, Parted, Live, WriteUnderWay, Latched, Apply;
    store := WriteUnderWayOnPage0(page);
    var r := store.WriteFrame(1);
    store.CountFrame(1);
    assert store.now.frames == [Frame(0, page, true)] && store.now.dirtyCount == 1 && store.now.tasks == map[];
    r := store.StartFree(2, 0);
    store.FinishFree(2);
  }
}
