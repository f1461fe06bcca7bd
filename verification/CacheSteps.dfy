/** What the critical sections of the page cache do to its state, and that each keeps the cache
    sound: one lemma per part of the invariant, put together per section. */
module CacheSteps {
  import opened Bytes
  import opened CacheState
  import opened SpillFile

  // ----- the moments a caller could observe

  /** One more moment, at which the live pages hold `live`. */
  ghost function Tell(h: History, live: map<nat, Page>): History { h.(past := h.past + [live]) }

  /** Frame `f` leaves the directory now. */
  ghost function Leave(h: History, f: nat): History { h.(left := h.left[f := Now(h)]) }

  ghost function Began(h: History, t: nat): History { h.(began := h.began[t := Now(h)]) }

  ghost function Saw(h: History, t: nat): History { h.(seen := h.seen[t := Now(h)]) }

  // ----- transforms

  function WithTask(s: State, t: nat, task: Task): State { s.(tasks := s.tasks[t := task]) }

  function Ended(s: State, t: nat): State { s.(tasks := s.tasks - {t}) }

  /** A new frame for `id`, its thread going on to the clock; any spilled copy is forgotten. */
  function Registering(s: State, t: nat, id: nat, page: Page, dirty: bool, owned: set<nat>): State {
    s.(frames := s.frames + [Frame(id, page, dirty)],
       dir := s.dir[id := |s.frames|],
       touched := s.touched + {|s.frames|},
       spill := Forget(s.spill, id),
       dirtyCount := s.dirtyCount + (if dirty then 1 else 0),
       tasks := s.tasks[t := Tick(id)],
       owned := owned)
  }

  /** The frame rewritten under its latch; a frame that was clean is counted next. */
  function Rewriting(s: State, t: nat, f: nat, page: Page, owned: set<nat>): State
    requires f < |s.frames|
  {
    s.(frames := s.frames[f := Frame(s.frames[f].id, page, true)],
       touched := s.touched + {f},
       tasks := if s.frames[f].dirty then s.tasks - {t} else s.tasks[t := Count(s.frames[f].id, f)],
       owned := owned)
  }

  /** The frame of `id`, if there is one, out of the directory. */
  function Unregistering(s: State, id: nat, spill: Spill): State {
    s.(dir := s.dir - {id},
       dirtyCount := s.dirtyCount - (if DirtyHere(s, id) then 1 else 0),
       spill := spill)
  }

  predicate DirtyHere(s: State, id: nat) {
    id in s.dir && s.dir[id] < |s.frames| && s.frames[s.dir[id]].dirty
  }

  // ----- sections that leave the directory and the contents alone

  ghost predicate SameFrames(s: State, s2: State) {
    SameContent(s, s2) && s2.dirtyCount == s.dirtyCount
  }

  ghost predicate SameContent(s: State, s2: State) {
    && s2.frames == s.frames && s2.dir == s.dir && s2.image == s.image && s2.owned == s.owned
    && s2.spill.slots == s.spill.slots && s2.spill.file == s.spill.file && s2.spill.gen == s.spill.gen
  }

  ghost predicate SameTasksBut(s: State, s2: State, t: nat) {
    forall u :: u != t ==> (u in s.tasks <==> u in s2.tasks) && (u in s.tasks ==> s2.tasks[u] == s.tasks[u])
  }

  ghost predicate SameTimesBut(h: History, h2: History, t: nat) {
    && h2 == h.(began := h2.began, seen := h2.seen)
    && (forall u :: u != t && u in h.began ==> u in h2.began && h2.began[u] == h.began[u])
    && (forall u :: u != t && u in h.seen ==> u in h2.seen && h2.seen[u] == h.seen[u])
  }

  ghost predicate SameIds(s: State, s2: State) {
    s2.free == s.free && s2.freeSet == s.freeSet && s2.nextId == s.nextId
  }

  ghost predicate SameClock(s: State, s2: State) {
    s2.clock == s.clock && s2.picked == s.picked && s2.capacity == s.capacity
  }

  /** The thread holds a page id before exactly when it holds it after. */
  ghost predicate HoldsAsMuch(s: State, s2: State, t: nat) {
    forall id {:trigger Between(s, t, id)} {:trigger Between(s2, t, id)} :: Between(s, t, id) <==> Between(s2, t, id)
  }

  lemma BetweenSame(s: State, s2: State, t: nat)
    requires SameTasksBut(s, s2, t) && HoldsAsMuch(s, s2, t)
    ensures forall u, id {:trigger Between(s2, u, id)} :: Between(s2, u, id) <==> Between(s, u, id)
    ensures forall id {:trigger Pending(s2, id)} :: Pending(s, id) ==> Pending(s2, id)
  {
    forall u, id ensures Between(s2, u, id) <==> Between(s, u, id) {
      if u == t { assert Between(s, t, id) <==> Between(s2, t, id); }
    }
    forall id | Pending(s, id) ensures Pending(s2, id) {
      var u :| Between(s, u, id);
      assert Between(s2, u, id);
    }
  }

  lemma IdsStay(s: State, s2: State, h: History, h2: History, t: nat)
    requires IdsOk(s, h) && SameTasksBut(s, s2, t) && HoldsAsMuch(s, s2, t)
    requires SameIds(s, s2) && s2.owned == s.owned && Live(h2).Keys == Live(h).Keys
    ensures IdsOk(s2, h2)
  {
    BetweenSame(s, s2, t);
    forall id: nat ensures IdOk(s2, id) { assert IdOk(s, id); }
    forall u, id ensures BetweenOk(s2, u, id) { assert BetweenOk(s, u, id); }
  }

  /** The thread neither waits for the clock nor holds a latch. */
  ghost predicate Plain(s: State, t: nat) {
    t in s.tasks ==> !s.tasks[t].Tick? && !s.tasks[t].PutLatched? && !s.tasks[t].Count?
  }

  lemma DirtyStays(s: State, s2: State, h: History, h2: History, t: nat)
    requires DirtyOk(s, h) && SameFrames(s, s2) && SameTasksBut(s, s2, t) && h2.stray == h.stray
    requires t in s.tasks ==> !s.tasks[t].PutLatched? && !s.tasks[t].Count?
    requires t in s2.tasks ==> !s2.tasks[t].PutLatched? && !s2.tasks[t].Count?
    ensures DirtyOk(s2, h2)
  {
    assert DirtyIds(s2) == DirtyIds(s);
    assert Counting(s2) == Counting(s);
    assert Straying(s2) == Straying(s);
  }

  lemma LatchesStay(s: State, s2: State, t: nat)
    requires LatchesOk(s) && SameTasksBut(s, s2, t)
    requires forall f {:trigger LatchedBy(s2, t, f)} :: LatchedBy(s2, t, f) ==> LatchedBy(s, t, f)
    ensures LatchesOk(s2)
  {
    forall u, w, f | LatchedBy(s2, u, f) && LatchedBy(s2, w, f) ensures u == w {
      assert LatchedBy(s, u, f) && LatchedBy(s, w, f);
    }
  }

  lemma ClockStays(s: State, s2: State, t: nat)
    requires ClockOk(s) && s2.dir == s.dir && SameTasksBut(s, s2, t) && SameClock(s, s2)
    requires t in s.tasks ==> !s.tasks[t].Tick?
    ensures ClockOk(s2)
  {
    forall id | s2.capacity > 0 && id in s2.dir ensures Clocked(s2, id) {
      assert Clocked(s, id);
      StillTicking(s, s2, t, id);
    }
  }

  lemma StillTicking(s: State, s2: State, t: nat, id: nat)
    requires SameTasksBut(s, s2, t) && (t in s.tasks ==> s.tasks[t] != Tick(id))
    ensures (exists u {:trigger Ticking(s, u, id)} :: Ticking(s, u, id)) ==> exists u {:trigger Ticking(s2, u, id)} :: Ticking(s2, u, id)
  {
    if u :| Ticking(s, u, id) { assert Ticking(s2, u, id); }
  }

  lemma TasksStay(s: State, s2: State, h: History, h2: History, t: nat)
    requires TasksOk(s, h) && SameContent(s, s2) && SameTasksBut(s, s2, t) && SameTimesBut(h, h2, t)
    requires TaskOk(s2, h2, t)
    ensures TasksOk(s2, h2)
  {
    forall u ensures TaskOk(s2, h2, u) { assert TaskOk(s, h, u); }
  }

  lemma ContentStays(s: State, s2: State, h: History, h2: History)
    requires ContentOk(s, h) && FramesOk(s, h) && DirOk(s) && SameContent(s, s2)
    requires h2.past == h.past && h2.left == h.left && h2.fix == h.fix
    ensures ContentOk(s2, h2) && FramesOk(s2, h2) && DirOk(s2)
  {
    forall id ensures Kept(s2, h2, id) { assert Kept(s, h, id); }
    forall id ensures CleanKept(s2, h2, id) { assert CleanKept(s, h, id); }
    forall f: nat ensures LeftAsOf(s2, h2, f) { assert LeftAsOf(s, h, f); }
    forall id ensures NamesFrame(s2, id) { assert NamesFrame(s, id); }
  }

  /** A section that only moves one thread, the clock, the free list or the spill's free slots. */
  lemma Moves(s: State, s2: State, h: History, h2: History, t: nat)
    requires Inv(s, h)
    requires SameContent(s, s2) && SameTasksBut(s, s2, t) && SameTimesBut(h, h2, t)
    requires TaskOk(s2, h2, t) && SpillOk(s2.spill) && IdsOk(s2, h2) && DirtyOk(s2, h2) && ClockOk(s2) && LatchesOk(s2)
    ensures Inv(s2, h2)
  {
    hide DirOk, SpillOk, ContentOk, FramesOk, IdsOk, DirtyOk, ClockOk, LatchesOk, TasksOk, TaskOk;
    ContentStays(s, s2, h, h2);
    TasksStay(s, s2, h, h2, t);
  }

  /** A thread moves on and nothing else changes. */
  lemma ThreadMoves(s: State, s2: State, h: History, h2: History, t: nat)
    requires Inv(s, h)
    requires s2 == s.(tasks := s2.tasks, touched := s2.touched) && SameTasksBut(s, s2, t) && SameTimesBut(h, h2, t)
    requires HoldsAsMuch(s, s2, t) && Plain(s, t) && Plain(s2, t)
    requires TaskOk(s2, h2, t)
    ensures Inv(s2, h2)
  {
    hide DirOk, SpillOk, ContentOk, FramesOk, IdsOk, DirtyOk, ClockOk, LatchesOk, TasksOk, TaskOk, HoldsAsMuch;
    IdsStay(s, s2, h, h2, t);
    DirtyStays(s, s2, h, h2, t);
    ClockStays(s, s2, t);
    LatchesStay(s, s2, t);
    Moves(s, s2, h, h2, t);
  }

  // ----- a change of one page

  /** The live pages after a change of page `id` only. */
  ghost predicate OnlyAt(h: History, live: map<nat, Page>, id: nat) {
    forall a :: a != id ==> (a in live <==> a in Live(h)) && (a in live ==> live[a] == Live(h)[a])
  }

  /** The thread gives up the id it was holding to its caller, or held none. */
  ghost predicate Settles(s: State, t: nat, id: nat, owned: set<nat>) {
    && t in s.tasks && s.tasks[t].id == id && !s.tasks[t].Tick?
    && (if Holding(s.tasks[t], id) then owned == s.owned + {id} else owned == s.owned)
  }

  lemma IdsSettle(s: State, s2: State, h: History, h2: History, t: nat, id: nat, owned: set<nat>)
    requires IdsOk(s, h) && Settles(s, t, id, owned)
    requires SameTasksBut(s, s2, t) && (t in s2.tasks ==> s2.tasks[t].Tick? || s2.tasks[t].Count?)
    requires SameIds(s, s2) && s2.owned == owned == Live(h2).Keys
    ensures IdsOk(s2, h2)
  {
    forall u, a ensures Between(s2, u, a) <==> u != t && Between(s, u, a) {
      if u != t { assert u in s.tasks <==> u in s2.tasks; }
    }
    assert Between(s, t, id) ==> BetweenOk(s, t, id);
    forall a: nat ensures IdOk(s2, a) {
      assert IdOk(s, a);
      if a < s.nextId && a !in s.owned && a !in s.freeSet && a !in s2.owned {
        var u :| Between(s, u, a);
        assert u != t;
        assert Between(s2, u, a);
      }
    }
    forall u, a ensures BetweenOk(s2, u, a) {
      if Between(s2, u, a) {
        assert Between(s, u, a);
        assert BetweenOk(s, u, a);
      }
    }
  }

  // ----- making a page resident

  ghost predicate MayRegister(s: State, h: History, id: nat, page: Page, dirty: bool, live: map<nat, Page>) {
    && id !in s.dir
    && OnlyAt(h, live, id)
    && (id in live ==> Alike(h, live[id], page))
    && (id in live && !dirty ==> id in s.image && Alike(h, s.image[id], page))
  }

  lemma RegisterContent(s: State, h: History, t: nat, id: nat, page: Page, dirty: bool, owned: set<nat>, live: map<nat, Page>)
    requires ContentOk(s, h) && DirOk(s) && MayRegister(s, h, id, page, dirty, live)
    ensures ContentOk(Registering(s, t, id, page, dirty, owned), Tell(h, live))
  {
    var s2, h2 := Registering(s, t, id, page, dirty, owned), Tell(h, live);
    assert Live(h2) == live;
    forall a ensures Kept(s2, h2, a) { assert Kept(s, h, a); assert NamesFrame(s, a); }
    forall a ensures CleanKept(s2, h2, a) { assert CleanKept(s, h, a); assert NamesFrame(s, a); }
  }

  lemma RegisterDir(s: State, t: nat, id: nat, page: Page, dirty: bool, owned: set<nat>)
    requires DirOk(s) && id !in s.dir
    ensures DirOk(Registering(s, t, id, page, dirty, owned))
  {
    var s2 := Registering(s, t, id, page, dirty, owned);
    forall a ensures NamesFrame(s2, a) { assert NamesFrame(s, a); }
  }

  lemma RegisterFrames(s: State, h: History, t: nat, id: nat, page: Page, dirty: bool, owned: set<nat>, live: map<nat, Page>)
    requires FramesOk(s, h) && DirOk(s) && id !in s.dir
    ensures FramesOk(Registering(s, t, id, page, dirty, owned), Tell(h, live))
  {
    var s2, h2 := Registering(s, t, id, page, dirty, owned), Tell(h, live);
    forall f: nat ensures LeftAsOf(s2, h2, f) { assert LeftAsOf(s, h, f); }
  }

  lemma RegisterDirty(s: State, t: nat, id: nat, page: Page, dirty: bool, owned: set<nat>)
    requires DirOk(s) && id !in s.dir
    ensures DirtyIds(Registering(s, t, id, page, dirty, owned)) == DirtyIds(s) + (if dirty then {id} else {})
    ensures id !in DirtyIds(s)
  {
    var s2 := Registering(s, t, id, page, dirty, owned);
    forall a ensures IsDirty(s2, a) <==> IsDirty(s, a) || (a == id && dirty) { assert NamesFrame(s, a); }
  }

  lemma RegisterStrays(s: State, t: nat, id: nat, page: Page, dirty: bool, owned: set<nat>)
    requires DirOk(s) && id !in s.dir && Plain(s, t)
    ensures Straying(Registering(s, t, id, page, dirty, owned)) == Straying(s)
    ensures Counting(Registering(s, t, id, page, dirty, owned)) == Counting(s)
  {
    var s2 := Registering(s, t, id, page, dirty, owned);
    forall f: nat | f < |s.frames| ensures Registered(s2, f) <==> Registered(s, f) {}
    forall u | u in s2.tasks ensures Strays(s2, u) <==> Strays(s, u) {}
  }

  lemma RegisterDirtyOk(s: State, h: History, t: nat, id: nat, page: Page, dirty: bool, owned: set<nat>, live: map<nat, Page>)
    requires DirtyOk(s, h) && DirOk(s) && TasksOk(s, h) && id !in s.dir && Plain(s, t)
    ensures DirtyOk(Registering(s, t, id, page, dirty, owned), Tell(h, live))
  {
    hide DirtyIds, Straying, Counting, DirOk;
    RegisterDirty(s, t, id, page, dirty, owned);
    RegisterStrays(s, t, id, page, dirty, owned);
  }

  lemma RegisterClock(s: State, t: nat, id: nat, page: Page, dirty: bool, owned: set<nat>)
    requires ClockOk(s) && id !in s.dir && Plain(s, t)
    ensures ClockOk(Registering(s, t, id, page, dirty, owned))
  {
    var s2 := Registering(s, t, id, page, dirty, owned);
    forall a | s2.capacity > 0 && a in s2.dir ensures Clocked(s2, a) {
      if a == id { assert Ticking(s2, t, a); }
      else { assert Clocked(s, a); StillTicking(s, s2, t, a); }
    }
  }

  lemma RegisterLatches(s: State, t: nat, id: nat, page: Page, dirty: bool, owned: set<nat>)
    requires LatchesOk(s)
    ensures LatchesOk(Registering(s, t, id, page, dirty, owned))
  {
    LatchesStay(s, Registering(s, t, id, page, dirty, owned), t);
  }

  lemma RegisterTask(s: State, h: History, t: nat, id: nat, page: Page, dirty: bool, owned: set<nat>, live: map<nat, Page>, u: nat)
    requires TaskOk(s, h, u) && id !in s.dir && h.past != [] && u != t && u in s.tasks
    ensures TaskOk(Registering(s, t, id, page, dirty, owned), Tell(h, live), u)
  {
    assert forall f: nat :: Registered(s, f) ==> Registered(Registering(s, t, id, page, dirty, owned), f);
  }

  lemma RegisterTasks(s: State, h: History, t: nat, id: nat, page: Page, dirty: bool, owned: set<nat>, live: map<nat, Page>)
    requires TasksOk(s, h) && id !in s.dir && h.past != []
    ensures TasksOk(Registering(s, t, id, page, dirty, owned), Tell(h, live))
  {
    hide Forget;
    var s2, h2 := Registering(s, t, id, page, dirty, owned), Tell(h, live);
    forall u ensures TaskOk(s2, h2, u) {
      assert TaskOk(s, h, u);
      if u in s.tasks && u != t { RegisterTask(s, h, t, id, page, dirty, owned, live, u); }
    }
  }

  lemma RegisterIds(s: State, h: History, t: nat, id: nat, page: Page, dirty: bool, owned: set<nat>, live: map<nat, Page>)
    requires IdsOk(s, h) && Settles(s, t, id, owned) && owned == live.Keys
    ensures IdsOk(Registering(s, t, id, page, dirty, owned), Tell(h, live))
  {
    IdsSettle(s, Registering(s, t, id, page, dirty, owned), h, Tell(h, live), t, id, owned);
  }

  /** A page made resident with its current content keeps the cache sound. */
  lemma Registers(s: State, h: History, t: nat, id: nat, page: Page, dirty: bool, owned: set<nat>, live: map<nat, Page>)
    requires Inv(s, h) && MayRegister(s, h, id, page, dirty, live)
    requires Settles(s, t, id, owned) && owned == live.Keys && Plain(s, t)
    ensures Inv(Registering(s, t, id, page, dirty, owned), Tell(h, live))
  {
    var s2, h2 := Registering(s, t, id, page, dirty, owned), Tell(h, live);
    assert id !in s.dir && h.past != [];
    ForgetOk(s.spill, id);
    RegistersParts(s, h, t, id, page, dirty, owned, live);
    assert s2.spill == Forget(s.spill, id);
  }

  lemma RegistersParts(s: State, h: History, t: nat, id: nat, page: Page, dirty: bool, owned: set<nat>, live: map<nat, Page>)
    requires Inv(s, h) && MayRegister(s, h, id, page, dirty, live) && id !in s.dir && h.past != []
    requires Settles(s, t, id, owned) && owned == live.Keys && Plain(s, t)
    ensures DirOk(Registering(s, t, id, page, dirty, owned)) && ClockOk(Registering(s, t, id, page, dirty, owned))
    ensures LatchesOk(Registering(s, t, id, page, dirty, owned))
    ensures DirtyOk(Registering(s, t, id, page, dirty, owned), Tell(h, live))
    ensures ContentOk(Registering(s, t, id, page, dirty, owned), Tell(h, live))
    ensures FramesOk(Registering(s, t, id, page, dirty, owned), Tell(h, live))
    ensures IdsOk(Registering(s, t, id, page, dirty, owned), Tell(h, live))
    ensures TasksOk(Registering(s, t, id, page, dirty, owned), Tell(h, live))
  {
    hide DirOk, SpillOk, ContentOk, FramesOk, IdsOk, DirtyOk, ClockOk, LatchesOk, TasksOk, MayRegister, Registering, Tell;
    RegisterDir(s, t, id, page, dirty, owned);
    RegisterDirtyOk(s, h, t, id, page, dirty, owned, live);
    RegisterClock(s, t, id, page, dirty, owned);
    RegisterLatches(s, t, id, page, dirty, owned);
    RegisterContent(s, h, t, id, page, dirty, owned, live);
    RegisterFrames(s, h, t, id, page, dirty, owned, live);
    RegisterIds(s, h, t, id, page, dirty, owned, live);
    RegisterTasks(s, h, t, id, page, dirty, owned, live);
  }

  // ----- rewriting a frame under its latch

  /** The frame is the page's, and takes its new content; or its page was freed meanwhile, and
      nothing live changes. */
  ghost predicate MayRewrite(s: State, h: History, f: nat, id: nat, page: Page, live: map<nat, Page>) {
    && f < |s.frames| && s.frames[f].id == id
    && if Registered(s, f) then OnlyAt(h, live, id) && (id in live ==> Alike(h, live[id], page))
       else live == Live(h) && FreedUnder(h, f, id)
  }

  lemma RewriteContent(s: State, h: History, t: nat, f: nat, id: nat, page: Page, owned: set<nat>, live: map<nat, Page>)
    requires ContentOk(s, h) && DirOk(s) && MayRewrite(s, h, f, id, page, live)
    ensures ContentOk(Rewriting(s, t, f, page, owned), Tell(h, live))
    ensures DirOk(Rewriting(s, t, f, page, owned))
  {
    var s2, h2 := Rewriting(s, t, f, page, owned), Tell(h, live);
    assert Live(h2) == live;
    forall a ensures Kept(s2, h2, a) { assert Kept(s, h, a); assert NamesFrame(s, a); }
    forall a ensures CleanKept(s2, h2, a) { assert CleanKept(s, h, a); assert NamesFrame(s, a); }
    forall a ensures NamesFrame(s2, a) { assert NamesFrame(s, a); }
  }

  lemma RewriteFrames(s: State, h: History, t: nat, f: nat, id: nat, page: Page, owned: set<nat>, live: map<nat, Page>)
    requires FramesOk(s, h) && MayRewrite(s, h, f, id, page, live)
    ensures FramesOk(Rewriting(s, t, f, page, owned), Tell(h, live))
  {
    var s2, h2 := Rewriting(s, t, f, page, owned), Tell(h, live);
    forall g: nat ensures LeftAsOf(s2, h2, g) { assert LeftAsOf(s, h, g); }
  }

  /** The thread holds the latch of frame `f`, and writes next. */
  ghost predicate HasLatch(s: State, t: nat, f: nat) {
    f < |s.frames| && t in s.tasks && s.tasks[t].PutLatched? && s.tasks[t].frame == f
  }

  lemma RewriteDirty(s: State, t: nat, f: nat, page: Page, owned: set<nat>)
    requires DirOk(s) && f < |s.frames|
    ensures DirtyIds(Rewriting(s, t, f, page, owned)) == DirtyIds(s) + (if Registered(s, f) then {s.frames[f].id} else {})
    ensures Registered(s, f) ==> (s.frames[f].id in DirtyIds(s) <==> s.frames[f].dirty)
  {
    var s2 := Rewriting(s, t, f, page, owned);
    var id := s.frames[f].id;
    forall a ensures IsDirty(s2, a) <==> IsDirty(s, a) || (a == id && Registered(s, f)) { assert NamesFrame(s, a); }
  }

  lemma RewriteStrays(s: State, t: nat, f: nat, page: Page, owned: set<nat>)
    requires LatchesOk(s) && HasLatch(s, t, f)
    ensures Straying(Rewriting(s, t, f, page, owned)) == Straying(s) - {t}
    ensures t in Straying(s) <==> !Registered(s, f) && !s.frames[f].dirty
    ensures Counting(Rewriting(s, t, f, page, owned)) == Counting(s) + (if s.frames[f].dirty then {} else {t})
    ensures t !in Counting(s)
  {
    var s2 := Rewriting(s, t, f, page, owned);
    assert LatchedBy(s, t, f);
    forall u | u in s2.tasks ensures Strays(s2, u) <==> Strays(s, u) && u != t {
      if u != t && s.tasks[u].PutLatched? { assert LatchedBy(s, u, s.tasks[u].frame); }
    }
  }

  lemma RewriteDirtyOk(s: State, h: History, t: nat, f: nat, page: Page, owned: set<nat>, live: map<nat, Page>)
    requires DirtyOk(s, h) && DirOk(s) && LatchesOk(s) && HasLatch(s, t, f)
    ensures DirtyOk(Rewriting(s, t, f, page, owned), Tell(h, live))
  {
    hide DirtyIds, Straying, Counting, DirOk, LatchesOk;
    RewriteDirty(s, t, f, page, owned);
    RewriteStrays(s, t, f, page, owned);
  }

  lemma RewriteClock(s: State, t: nat, f: nat, page: Page, owned: set<nat>)
    requires ClockOk(s) && HasLatch(s, t, f)
    ensures ClockOk(Rewriting(s, t, f, page, owned))
  {
    ClockStays(s, Rewriting(s, t, f, page, owned), t);
  }

  lemma RewriteLatches(s: State, t: nat, f: nat, page: Page, owned: set<nat>)
    requires LatchesOk(s) && HasLatch(s, t, f)
    ensures LatchesOk(Rewriting(s, t, f, page, owned))
  {
    LatchesStay(s, Rewriting(s, t, f, page, owned), t);
  }

  lemma RewriteTask(s: State, h: History, t: nat, f: nat, page: Page, owned: set<nat>, live: map<nat, Page>, u: nat)
    requires TaskOk(s, h, u) && f < |s.frames| && h.past != [] && u != t && u in s.tasks
    ensures TaskOk(Rewriting(s, t, f, page, owned), Tell(h, live), u)
  {
    hide SpilledCopyOk, Registered;
    var s2 := Rewriting(s, t, f, page, owned);
    match s.tasks[u]
    case GetSpilled(id, copy, gen) => SpilledLater(s, s2, h, live, u, id, copy, gen);
    case GetLoaded(id, copy, Spilled(gen)) => SpilledLater(s, s2, h, live, u, id, copy, gen);
    case GetFrame(_, g) => StillRegistered(s, t, f, page, owned, g);
    case PutLatched(_, _, _, g) => StillRegistered(s, t, f, page, owned, g);
    case _ =>
  }

  lemma StillRegistered(s: State, t: nat, f: nat, page: Page, owned: set<nat>, g: nat)
    requires f < |s.frames|
    ensures Registered(Rewriting(s, t, f, page, owned), g) <==> Registered(s, g)
  {
  }

  lemma SpilledLater(s: State, s2: State, h: History, live: map<nat, Page>, u: nat, id: nat, copy: Page, gen: nat)
    requires SpilledCopyOk(s, h, u, id, copy, gen) && s2.spill == s.spill
    ensures SpilledCopyOk(s2, Tell(h, live), u, id, copy, gen)
  {
  }

  lemma RewriteTasks(s: State, h: History, t: nat, f: nat, page: Page, owned: set<nat>, live: map<nat, Page>)
    requires TasksOk(s, h) && HasLatch(s, t, f) && h.past != []
    ensures TasksOk(Rewriting(s, t, f, page, owned), Tell(h, live))
  {
    var s2, h2 := Rewriting(s, t, f, page, owned), Tell(h, live);
    forall u ensures TaskOk(s2, h2, u) {
      assert TaskOk(s, h, u);
      if u in s.tasks && u != t { RewriteTask(s, h, t, f, page, owned, live, u); }
    }
  }

  lemma Rewrites(s: State, h: History, t: nat, f: nat, id: nat, page: Page, owned: set<nat>, live: map<nat, Page>)
    requires Inv(s, h) && f < |s.frames| && MayRewrite(s, h, f, id, page, live) && HasLatch(s, t, f)
    requires Settles(s, t, id, owned) && owned == live.Keys
    ensures Inv(Rewriting(s, t, f, page, owned), Tell(h, live))
  {
    var s2, h2 := Rewriting(s, t, f, page, owned), Tell(h, live);
    RewritesParts(s, h, t, f, id, page, owned, live);
    assert s2.spill == s.spill;
  }

  lemma RewritesParts(s: State, h: History, t: nat, f: nat, id: nat, page: Page, owned: set<nat>, live: map<nat, Page>)
    requires Inv(s, h) && f < |s.frames| && MayRewrite(s, h, f, id, page, live) && HasLatch(s, t, f)
    requires Settles(s, t, id, owned) && owned == live.Keys
    ensures DirOk(Rewriting(s, t, f, page, owned)) && ClockOk(Rewriting(s, t, f, page, owned))
    ensures LatchesOk(Rewriting(s, t, f, page, owned))
    ensures DirtyOk(Rewriting(s, t, f, page, owned), Tell(h, live))
    ensures ContentOk(Rewriting(s, t, f, page, owned), Tell(h, live))
    ensures FramesOk(Rewriting(s, t, f, page, owned), Tell(h, live))
    ensures IdsOk(Rewriting(s, t, f, page, owned), Tell(h, live))
    ensures TasksOk(Rewriting(s, t, f, page, owned), Tell(h, live))
  {
    hide DirOk, SpillOk, FramesOk, DirtyOk, ClockOk, LatchesOk, TasksOk;
    RewriteContent(s, h, t, f, id, page, owned, live);
    RewriteFrames(s, h, t, f, id, page, owned, live);
    RewriteDirtyOk(s, h, t, f, page, owned, live);
    RewriteClock(s, t, f, page, owned);
    RewriteLatches(s, t, f, page, owned);
    RewriteTasks(s, h, t, f, page, owned, live);
    RewriteIds(s, h, t, f, id, page, owned, live);
  }

  lemma RewriteIds(s: State, h: History, t: nat, f: nat, id: nat, page: Page, owned: set<nat>, live: map<nat, Page>)
    requires IdsOk(s, h) && HasLatch(s, t, f) && Settles(s, t, id, owned) && owned == live.Keys
    ensures IdsOk(Rewriting(s, t, f, page, owned), Tell(h, live))
  {
    IdsSettle(s, Rewriting(s, t, f, page, owned), h, Tell(h, live), t, id, owned);
  }
}
