/** What every critical section of the store does, as a step of a state machine: the state and the
    reply it leaves, whichever thread takes it and whatever the other threads are in the middle of. */
module CacheSections {
  import opened Bytes
  import opened CacheState
  import opened SpillFile
  import opened CacheSteps
  import opened CacheLeave
  import opened CacheThreads
  import opened CacheClock
  import opened CacheImage

  /** What a section tells its caller: nothing yet, the page a read asked for, that there is no
      such page, an I/O failure, a write out of bounds, or that a change is done. `Missed` is a
      write whose page was freed before it came; its caller is told no more than of any write. */
  datatype Reply =
    | Silent
    | Value(id: nat, page: Page)
    | NoPage(id: nat)
    | Failed(id: nat)
    | Refused(id: nat)
    | Wrote(id: nat, page: Page)
    | Missed(id: nat)
    | Allocated(id: nat)
    | Freed(id: nat)

  /** The live pages after a reply. */
  function Apply(live: map<nat, Page>, r: Reply): map<nat, Page> {
    match r
    case Wrote(id, page) => if id in live then live[id := page] else live
    case Allocated(id) => live[id := Zero()]
    case Freed(id) => live - {id}
    case _ => live
  }

  /** The sections threads may take, in any order, with what the world outside decides: whether a
      read of the image fails, which frames are latched, whether a write to the spill fails,
      whether an allocation looked at the free list too early to see an id on it. */
  datatype Step =
    | StartRead(t: nat, id: nat)
    | Locate(t: nat)
    | ReadFrame(t: nat)
    | Load(t: nat, fails: bool)
    | Install(t: nat)
    | StartWrite(t: nat, id: nat, page: Page)
    | Lookup(t: nat)
    | CheckFrame(t: nat)
    | WriteFrame(t: nat)
    | CountFrame(t: nat)
    | WriteNew(t: nat)
    | StartAllocate(t: nat, late: bool)
    | StartFree(t: nat, id: nat)
    | FinishFree(t: nat)
    | PushClock(t: nat)
    | Pick(limit: nat, policy: Policy, latched: set<nat>)
    | Evict(busy: bool, fails: bool)
    | SetCapacity(frames: nat)
    | EnableSpill
    | DisableSpill
    | Checkpoint(carried: set<nat>)

  /** How one eviction attempt ended. */
  datatype Eviction = Gone | Busy | SpillFailed

  // ----- reads

  function AfterRead(s: State, t: nat): (State, Reply)
    requires t in s.tasks && s.tasks[t].GetFrame? && s.tasks[t].frame < |s.frames|
  {
    var f := s.tasks[t].frame;
    (Ended(s, t).(touched := s.touched + {f}), Value(s.tasks[t].id, s.frames[f].data))
  }

  /** A free page is refused, and so is one the image does not hold; otherwise its copy is in hand. */
  function AfterLoad(s: State, t: nat, fails: bool): (State, Reply)
    requires t in s.tasks && (s.tasks[t].GetSpilled? || s.tasks[t].GetImage?)
  {
    var id := s.tasks[t].id;
    if id in s.freeSet || (s.tasks[t].GetImage? && id !in s.image) then (Ended(s, t), NoPage(id))
    else if s.tasks[t].GetImage? && fails then (Ended(s, t), Failed(id))
    else (WithTask(s, t, Loaded(s, s.tasks[t]).value), Silent)
  }

  /** The copy in hand becomes the resident one, unless the page is resident by now or the copy is
      no longer the latest; then the read starts over. */
  function AfterInstall(s: State, t: nat): (State, Reply)
    requires t in s.tasks && s.tasks[t].GetLoaded?
  {
    var task := s.tasks[t];
    if task.id in s.dir || !Admits(s.spill, task.id, task.source) then (WithTask(s, t, Get(task.id)), Silent)
    else (Registering(s, t, task.id, task.page, task.source.Spilled?, s.owned), Value(task.id, task.page))
  }

  // ----- writes

  function LookedUp(s: State, task: Task): Task
    requires task.Put?
  {
    if task.id in s.dir then PutFrame(task.id, task.page, task.newly, s.dir[task.id])
    else PutNew(task.id, task.page, task.newly)
  }

  /** Under the latch: go on if the frame is still the page's, and look the page up again if not. */
  function Checked(s: State, task: Task): Task
    requires task.PutFrame?
  {
    if task.id in s.dir && s.dir[task.id] == task.frame then LatchedTask(task)
    else Put(task.id, task.page, task.newly)
  }

  function Answer(task: Task): Reply
    requires task.PutLatched? || task.PutNew?
  {
    if task.newly then Allocated(task.id) else Wrote(task.id, task.page)
  }

  /** The page is written in the frame whose latch is held, whether or not the frame is still its
      page's. */
  function AfterWrite(s: State, t: nat): (State, Reply)
    requires t in s.tasks && s.tasks[t].PutLatched? && s.tasks[t].frame < |s.frames|
  {
    var task := s.tasks[t];
    (Rewriting(s, t, task.frame, task.page, OwnedAfter(s, task)),
     if task.id in s.dir && s.dir[task.id] == task.frame then Answer(task) else Missed(task.id))
  }

  /** The write as a new frame, if the page is still not resident. */
  function AfterNew(s: State, t: nat): (State, Reply)
    requires t in s.tasks && s.tasks[t].PutNew?
  {
    var task := s.tasks[t];
    if task.id in s.dir then (WithTask(s, t, Put(task.id, task.page, task.newly)), Silent)
    else (Registering(s, t, task.id, task.page, true, OwnedAfter(s, task)), Answer(task))
  }

  // ----- frees and evictions

  function AfterFree(s: State, t: nat, id: nat): State {
    Leaving(s, id, Forget(s.spill, id), s.owned - {id}, s.tasks[t := Drop(id)])
  }

  /** The spill once page `id` has left memory. */
  function SpillAfter(s: State, id: nat): Spill {
    if DirtyHere(s, id) then Stored(s.spill, id, s.frames[s.dir[id]].data) else s.spill
  }

  /** The picked page leaves if its frame can be latched, and it is clean or reaches the spill. */
  function AfterEvict(s: State, busy: bool, fails: bool): (State, Eviction)
    requires s.picked.Some?
  {
    var v := s.picked.value;
    if v.id !in s.dir then (s.(picked := None), Gone)
    else if busy || Latched(s, s.dir[v.id]) || (DirtyHere(s, v.id) && !v.spill) then
      (s.(clock := s.clock + [v.id], picked := None), Busy)
    else if DirtyHere(s, v.id) && (fails || !s.spill.on) then
      (s.(clock := s.clock + [v.id], picked := None, spill := if s.spill.on then NotStored(s.spill, v.id) else s.spill), SpillFailed)
    else
      (Leaving(s, v.id, SpillAfter(s, v.id), s.owned, s.tasks).(picked := None), Gone)
  }

  // ----- checkpoints

  /** The page of the next image: carried over from the current one where unchanged and stored in a
      segment of it, and written after `fix` otherwise. */
  function ImageOf(s: State, fix: Page -> Page, carried: set<nat>, id: nat): Page {
    if Unchanged(s, id) && id in carried && id in s.image then s.image[id] else fix(Content(s, id))
  }

  ghost predicate MadeFrom(s: State, fix: Page -> Page, carried: set<nat>, pages: map<nat, Page>) {
    pages.Keys == s.owned && forall id {:trigger pages[id]} :: id in pages ==> pages[id] == ImageOf(s, fix, carried, id)
  }

  // ----- one step

  /** A section whose thread is not there, or that waits for a latch or the clock, does nothing. */
  ghost predicate Enabled(s: State, step: Step) {
    match step
    case StartRead(t, id) => t !in s.tasks
    case Locate(t) => t in s.tasks && s.tasks[t].Get?
    case ReadFrame(t) => t in s.tasks && s.tasks[t].GetFrame? && s.tasks[t].frame < |s.frames| && !Latched(s, s.tasks[t].frame)
    case Load(t, fails) => t in s.tasks && (s.tasks[t].GetSpilled? || s.tasks[t].GetImage?)
    case Install(t) => t in s.tasks && s.tasks[t].GetLoaded?
    case StartWrite(t, id, page) => t !in s.tasks
    case Lookup(t) => t in s.tasks && s.tasks[t].Put?
    case CheckFrame(t) => t in s.tasks && s.tasks[t].PutFrame? && !Latched(s, s.tasks[t].frame)
    case WriteFrame(t) => t in s.tasks && s.tasks[t].PutLatched? && s.tasks[t].frame < |s.frames|
    case CountFrame(t) => t in s.tasks && s.tasks[t].Count?
    case WriteNew(t) => t in s.tasks && s.tasks[t].PutNew?
    case StartAllocate(t, late) => t !in s.tasks
    case StartFree(t, id) => t !in s.tasks && id in s.owned
    case FinishFree(t) => t in s.tasks && s.tasks[t].Drop?
    case PushClock(t) => t in s.tasks && s.tasks[t].Tick? && s.picked.None?
    case Pick(limit, policy, latched) => s.picked.None?
    case Evict(busy, fails) => s.picked.Some?
    case SetCapacity(frames) => s.picked.None?
    case EnableSpill => true
    case DisableSpill => s.spill.slots == map[]
    case Checkpoint(carried) => s.tasks == map[] && s.picked == None
  }

  ghost predicate Next(fix: Page -> Page, s: State, step: Step, s2: State, r: Reply) {
    if !Enabled(s, step) then s2 == s && r == Silent
    else
      match step
      case StartRead(t, id) => (s2, r) == (WithTask(s, t, Get(id)), Silent)
      case Locate(t) => (s2, r) == (WithTask(s, t, Located(s, s.tasks[t].id)), Silent)
      case ReadFrame(t) => (s2, r) == AfterRead(s, t)
      case Load(t, fails) => (s2, r) == AfterLoad(s, t, fails)
      case Install(t) => (s2, r) == AfterInstall(s, t)
      case StartWrite(t, id, page) =>
        (s2, r) == if id >= s.nextId then (s, Refused(id)) else (WithTask(s, t, Put(id, page, false)), Silent)
      case Lookup(t) => (s2, r) == (WithTask(s, t, LookedUp(s, s.tasks[t])), Silent)
      case CheckFrame(t) => (s2, r) == (WithTask(s, t, Checked(s, s.tasks[t])), Silent)
      case WriteFrame(t) => (s2, r) == AfterWrite(s, t)
      case CountFrame(t) => (s2, r) == (Counted(s, t), Silent)
      case WriteNew(t) => (s2, r) == AfterNew(s, t)
      case StartAllocate(t, late) => (s2, r) == (Taking(s, t, late), Silent)
      case StartFree(t, id) => (s2, r) == (AfterFree(s, t, id), Freed(id))
      case FinishFree(t) => (s2, r) == (GivingBack(s, t, s.tasks[t].id), Silent)
      case PushClock(t) => s2 == Ended(s, t).(clock := s2.clock) && r == Silent && TicksOver(s, s.tasks[t].id, s2)
      case Pick(limit, policy, latched) =>
        && s2 == s.(clock := s2.clock, touched := s2.touched, picked := s2.picked) && r == Silent
        && Sweeps(s, limit, policy, latched, s2.clock, s2.touched, s2.picked)
      case Evict(busy, fails) => s2 == AfterEvict(s, busy, fails).0 && r == Silent
      case SetCapacity(frames) =>
        && s2 == s.(capacity := frames, clock := s2.clock) && r == Silent
        && (forall id :: id in s2.clock <==> frames > 0 && id in s.dir)
      case EnableSpill => (s2, r) == (s.(spill := s.spill.(on := true)), Silent)
      case DisableSpill => (s2, r) == (s.(spill := s.spill.(on := false)), Silent)
      case Checkpoint(carried) => MadeFrom(s, fix, carried, s2.image) && s2 == Attached(s, s2.image) && r == Silent
  }

  /** The page goes on the clock of a bounded cache; once stale entries dominate, only resident ones
      stay, each once. */
  ghost predicate TicksOver(s: State, id: nat, s2: State) {
    if s.capacity == 0 then s2.clock == s.clock
    else if |s.clock| + 1 > 64 && |s.clock| + 1 > 2 * |s.dir| then
      && |s2.clock| <= |s.dir|
      && (forall a :: a in s2.clock <==> a in s.clock + [id] && a in s.dir)
    else s2.clock == s.clock + [id]
  }

  /** The freeing of a page under a write that has found its clean frame registered. */
  ghost predicate FreesUnderWrite(s: State, step: Step) {
    Enabled(s, step) && step.StartFree? && WriteUnderWay(s, step.id)
  }
}
