/** The state of the page cache: frames in memory, the spill file, the image of the last
    checkpoint, the free list, and what every thread inside the store is in the middle of. */
module CacheState {
  import opened Bytes
  import opened Distinctness
  import Sequences

  type Page = seq<byte>

  function Zero(): Page { seq(Sequences.PAGE_SIZE, _ => 0) }

  /** A resident page. A frame keeps its number for ever: a thread that holds a frame across an
      eviction still reads that frame. */
  datatype Frame = Frame(id: nat, data: Page, dirty: bool)

  /** Where the spill file holds a page, and the generation of the copy written there. */
  datatype Slot = Slot(at: nat, gen: nat)

  datatype Spill = Spill(
    on: bool,
    slots: map<nat, Slot>,
    file: map<nat, Page>,
    free: seq<nat>,
    next: nat,
    gen: nat,
    failing: bool)

  /** Where a copy handed to the directory came from. */
  datatype Source = Fresh | Image | Spilled(gen: nat)

  datatype Victim = Victim(id: nat, spill: bool)

  /** One thread inside the store, between two of its critical sections. */
  datatype Task =
    // A read: about to look the page up; holding the resident frame; holding the spilled copy
    // or knowing that there is none; holding a copy to make resident.
    | Get(id: nat)
    | GetFrame(id: nat, frame: nat)
    | GetSpilled(id: nat, page: Page, gen: nat)
    | GetImage(id: nat)
    | GetLoaded(id: nat, page: Page, source: Source)
    // A write, or the zeroing that ends an allocation (`newly`): about to look the page up;
    // holding the resident frame; holding its latch too, the frame found still registered; the
    // page written and the frame, clean before, still to be counted; about to make the page
    // resident.
    | Put(id: nat, page: Page, newly: bool)
    | PutFrame(id: nat, page: Page, newly: bool, frame: nat)
    | PutLatched(id: nat, page: Page, newly: bool, frame: nat)
    | Count(id: nat, frame: nat)
    | PutNew(id: nat, page: Page, newly: bool)
    // A deallocation whose page has left the cache and is not yet on the free list.
    | Drop(id: nat)
    // A page made resident and not yet on the clock.
    | Tick(id: nat)

  datatype State = State(
    frames: seq<Frame>,
    dir: map<nat, nat>,
    // The frames whose second-chance bit is set.
    touched: set<nat>,
    clock: seq<nat>,
    free: seq<nat>,
    freeSet: set<nat>,
    nextId: nat,
    capacity: nat,
    dirtyCount: int,
    image: map<nat, Page>,
    spill: Spill,
    picked: Option<Victim>,
    tasks: map<nat, Task>,
    // The pages the callers hold: allocated and not given back.
    owned: set<nat>)

  /** What the callers may rely on: `past` is the content of every live page, moment by moment,
      the last being now; `left` is the moment each frame left the directory; `began` and `seen`
      are when each read started and when it took its copy. `stray` counts the pages freed since
      the last checkpoint while a write that had found its clean frame registered was still to
      come. `fix` is the rewriting an image may apply to a page. */
  datatype History = History(
    fix: Page -> Page,
    past: seq<map<nat, Page>>,
    left: map<nat, nat>,
    began: map<nat, nat>,
    seen: map<nat, nat>,
    stray: nat)

  ghost predicate Alike(h: History, p: Page, q: Page) {
    h.fix(p) == h.fix(q)
  }

  /** `p` is what page `id` held at moment `k`, unless the page was not live then. */
  ghost predicate AsOf(h: History, id: nat, p: Page, k: nat) {
    k < |h.past| && (id in h.past[k] ==> Alike(h, h.past[k][id], p))
  }

  ghost function Now(h: History): nat { if |h.past| == 0 then 0 else |h.past| - 1 }

  ghost function Live(h: History): map<nat, Page> {
    if |h.past| == 0 then map[] else h.past[|h.past| - 1]
  }

  // ----- the directory

  ghost predicate Registered(s: State, f: nat) {
    f < |s.frames| && s.frames[f].id in s.dir && s.dir[s.frames[f].id] == f
  }

  ghost predicate NamesFrame(s: State, id: nat) {
    id in s.dir ==> s.dir[id] < |s.frames| && s.frames[s.dir[id]].id == id
  }

  ghost predicate DirOk(s: State) {
    && (forall id {:trigger NamesFrame(s, id)} :: NamesFrame(s, id))
    && (forall id :: id in s.dir ==> id !in s.spill.slots)
  }

  // ----- the spill

  ghost predicate SlotOk(p: Spill, id: nat) {
    id in p.slots ==>
      && p.slots[id].at < p.next && p.slots[id].at in p.file
      && p.slots[id].at !in p.free && p.slots[id].gen <= p.gen
  }

  function SpillCopy(p: Spill, id: nat): Page {
    if id in p.slots && p.slots[id].at in p.file then p.file[p.slots[id].at] else []
  }

  ghost predicate UsedBy(p: Spill, k: nat, id: nat) {
    id in p.slots && p.slots[id].at == k
  }

  ghost predicate SlotTaken(p: Spill, k: nat) {
    k in p.free || exists id {:trigger UsedBy(p, k, id)} :: UsedBy(p, k, id)
  }

  /** Every slot below the mark is either free, once, or holds one page. */
  ghost predicate SpillOk(p: Spill) {
    && (forall id {:trigger SlotOk(p, id)} :: SlotOk(p, id))
    && (forall a, b :: a in p.slots && b in p.slots && a != b ==> p.slots[a].at != p.slots[b].at)
    && Distinct(p.free)
    && (forall k :: k in p.free ==> k < p.next)
    && (forall k: nat {:trigger SlotTaken(p, k)} :: k < p.next ==> SlotTaken(p, k))
    && (p.slots != map[] ==> p.on)
  }

  // ----- contents

  ghost predicate Found(s: State, id: nat) {
    id in s.dir || id in s.spill.slots || id in s.image
  }

  /** The copy of a page that the store would hand out. */
  function Content(s: State, id: nat): Page {
    if id in s.dir then if s.dir[id] < |s.frames| then s.frames[s.dir[id]].data else []
    else if id in s.spill.slots then SpillCopy(s.spill, id)
    else if id in s.image then s.image[id] else []
  }

  ghost predicate Kept(s: State, h: History, id: nat) {
    id in Live(h) ==> Found(s, id) && Alike(h, Live(h)[id], Content(s, id))
  }

  /** A clean frame of a live page holds what the image holds. */
  ghost predicate CleanKept(s: State, h: History, id: nat) {
    id in Live(h) && id in s.dir && s.dir[id] < |s.frames| && !s.frames[s.dir[id]].dirty ==>
      id in s.image && Alike(h, s.image[id], s.frames[s.dir[id]].data)
  }

  ghost predicate ContentOk(s: State, h: History) {
    && h.past != []
    && (forall id {:trigger Kept(s, h, id)} :: Kept(s, h, id))
    && (forall id {:trigger CleanKept(s, h, id)} :: CleanKept(s, h, id))
  }

  // ----- frames that left

  ghost predicate LeftAsOf(s: State, h: History, f: nat) {
    f < |s.frames| && !Registered(s, f) ==>
      f in h.left && AsOf(h, s.frames[f].id, s.frames[f].data, h.left[f])
  }

  ghost predicate FramesOk(s: State, h: History) {
    forall f: nat {:trigger LeftAsOf(s, h, f)} :: LeftAsOf(s, h, f)
  }

  // ----- page ids

  /** A write before its page is written. */
  predicate Writes(task: Task) { task.Put? || task.PutFrame? || task.PutLatched? || task.PutNew? }

  ghost predicate Holding(task: Task, id: nat) {
    task.id == id && (task.Drop? || (Writes(task) && task.newly))
  }

  ghost predicate Between(s: State, t: nat, id: nat) {
    t in s.tasks && Holding(s.tasks[t], id)
  }

  ghost predicate Pending(s: State, id: nat) {
    exists t {:trigger Between(s, t, id)} :: Between(s, t, id)
  }

  ghost predicate IdOk(s: State, id: nat) {
    && (id in s.owned ==> id < s.nextId && id !in s.freeSet)
    && (id in s.freeSet ==> id < s.nextId)
    && (id < s.nextId ==> id in s.owned || id in s.freeSet || Pending(s, id))
  }

  ghost predicate BetweenOk(s: State, t: nat, id: nat) {
    Between(s, t, id) ==>
      && id < s.nextId && id !in s.owned && id !in s.freeSet
      && (forall u {:trigger Between(s, u, id)} :: Between(s, u, id) ==> u == t)
  }

  /** Every id handed out so far is held by a caller, free, or held by one thread on its way
      between the two; the free list and the free set agree. */
  ghost predicate IdsOk(s: State, h: History) {
    && s.owned == Live(h).Keys
    && Distinct(s.free)
    && (forall id :: id in s.free <==> id in s.freeSet)
    && (forall id: nat {:trigger IdOk(s, id)} :: IdOk(s, id))
    && (forall t, id {:trigger Between(s, t, id)} :: BetweenOk(s, t, id))
  }

  // ----- counters and clock

  ghost predicate IsDirty(s: State, id: nat) {
    id in s.dir && s.dir[id] < |s.frames| && s.frames[s.dir[id]].dirty
  }

  ghost function DirtyIds(s: State): set<nat> {
    set id | id in s.dir && IsDirty(s, id)
  }

  ghost predicate Ticking(s: State, t: nat, id: nat) {
    t in s.tasks && s.tasks[t] == Tick(id)
  }

  ghost predicate Clocked(s: State, id: nat) {
    || id in s.clock
    || (s.picked.Some? && s.picked.value.id == id)
    || (exists t {:trigger Ticking(s, t, id)} :: Ticking(s, t, id))
  }

  /** The write in progress of thread `t` will land in a clean frame that has left. */
  ghost predicate Strays(s: State, t: nat) {
    && t in s.tasks && s.tasks[t].PutLatched? && s.tasks[t].frame < |s.frames|
    && !Registered(s, s.tasks[t].frame) && !s.frames[s.tasks[t].frame].dirty
  }

  ghost function Straying(s: State): set<nat> { set t | t in s.tasks && Strays(s, t) }

  ghost function Counting(s: State): set<nat> { set t | t in s.tasks && s.tasks[t].Count? }

  /** The dirty count, once the writes in progress are counted, exceeds the changed frames by the
      writes to pages freed under them. */
  ghost predicate DirtyOk(s: State, h: History) {
    s.dirtyCount + |Counting(s)| + |Straying(s)| == |DirtyIds(s)| + h.stray
  }

  ghost predicate ClockOk(s: State) {
    (s.capacity > 0 ==> forall id {:trigger Clocked(s, id)} :: id in s.dir ==> Clocked(s, id))
  }

  // ----- latches

  predicate HoldsLatch(task: Task, f: nat) { (task.PutLatched? || task.Count?) && task.frame == f }

  ghost predicate LatchedBy(s: State, t: nat, f: nat) {
    t in s.tasks && HoldsLatch(s.tasks[t], f)
  }

  /** Some thread holds the latch of frame `f` between two sections. */
  predicate Latched(s: State, f: nat) {
    exists t :: t in s.tasks && HoldsLatch(s.tasks[t], f)
  }

  ghost predicate LatchesOk(s: State) {
    forall t, u, f {:trigger LatchedBy(s, t, f), LatchedBy(s, u, f)} :: LatchedBy(s, t, f) && LatchedBy(s, u, f) ==> t == u
  }

  // ----- threads

  /** The copy in a thread's hands was current when it took it, and is still the spilled copy if
      its generation is still the one registered. */
  ghost predicate SpilledCopyOk(s: State, h: History, t: nat, id: nat, page: Page, gen: nat) {
    && SeenOk(h, t) && AsOf(h, id, page, h.seen[t])
    && gen <= s.spill.gen
    && (id in s.spill.slots && s.spill.slots[id].gen == gen ==> SpillCopy(s.spill, id) == page)
  }

  ghost predicate SeenOk(h: History, t: nat) {
    t in h.began && t in h.seen && h.began[t] <= h.seen[t]
  }

  /** Frame `f` left because its page `id` was freed. */
  ghost predicate FreedUnder(h: History, f: nat, id: nat) {
    f in h.left && h.left[f] < |h.past| && id !in h.past[h.left[f]]
  }

  ghost predicate TaskOk(s: State, h: History, t: nat) {
    t in s.tasks ==>
      match s.tasks[t]
      case Get(id) => t in h.began && h.began[t] <= Now(h)
      case GetFrame(id, f) =>
        && f < |s.frames| && s.frames[f].id == id
        && t in h.began && h.began[t] <= Now(h)
        && (Registered(s, f) || (f in h.left && h.began[t] <= h.left[f]))
      case GetSpilled(id, page, gen) => SpilledCopyOk(s, h, t, id, page, gen)
      case GetImage(id) =>
        && SeenOk(h, t) && h.seen[t] < |h.past|
        && (if id in s.image then AsOf(h, id, s.image[id], h.seen[t]) else id !in h.past[h.seen[t]])
      case GetLoaded(id, page, Fresh) => false
      case GetLoaded(id, page, Image) =>
        id in s.image && page == s.image[id] && SeenOk(h, t) && AsOf(h, id, page, h.seen[t])
      case GetLoaded(id, page, Spilled(gen)) => SpilledCopyOk(s, h, t, id, page, gen)
      case Put(id, page, newly) => newly ==> page == Zero()
      case PutNew(id, page, newly) => newly ==> page == Zero()
      case PutFrame(id, page, newly, f) => f < |s.frames| && s.frames[f].id == id && (newly ==> page == Zero())
      case PutLatched(id, page, newly, f) =>
        && f < |s.frames| && s.frames[f].id == id && (newly ==> page == Zero())
        && (Registered(s, f) || (!newly && FreedUnder(h, f, id)))
      case Count(id, f) => f < |s.frames|
      case _ => true
  }

  ghost predicate TasksOk(s: State, h: History) {
    forall t {:trigger TaskOk(s, h, t)} :: TaskOk(s, h, t)
  }

  ghost predicate Inv(s: State, h: History) {
    && DirOk(s)
    && SpillOk(s.spill)
    && ContentOk(s, h)
    && FramesOk(s, h)
    && IdsOk(s, h)
    && DirtyOk(s, h)
    && ClockOk(s)
    && LatchesOk(s)
    && TasksOk(s, h)
  }
}
