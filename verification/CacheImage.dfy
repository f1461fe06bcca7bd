/** Checkpoints: the image a checkpoint publishes, and the cache backed by it. */
module CacheImage {
  import opened Bytes
  import opened Distinctness
  import opened CacheState
  import opened SpillFile
  import opened CacheSteps

  /** No thread is inside the store. */
  ghost predicate Quiet(s: State) {
    s.tasks == map[] && s.picked == None
  }

  ghost predicate Idempotent(fix: Page -> Page) {
    forall p {:trigger fix(p)} :: fix(fix(p)) == fix(p)
  }

  /** Whether a page is unchanged since the image: neither dirty nor spilled. */
  predicate Unchanged(s: State, id: nat) {
    if id in s.dir then !DirtyHere(s, id) else id !in s.spill.slots
  }

  /** An image that holds exactly the live pages, with their content up to `fix`. */
  ghost predicate Holds(h: History, pages: map<nat, Page>) {
    pages.Keys == Live(h).Keys && forall id {:trigger pages[id]} :: id in pages ==> Alike(h, Live(h)[id], pages[id])
  }

  /** In a quiet store the live pages are the ids handed out and not free. */
  lemma LiveIds(s: State, h: History)
    requires Inv(s, h) && Quiet(s)
    ensures forall id: nat :: id in s.owned <==> id < s.nextId && id !in s.freeSet
  {
    forall id: nat ensures id in s.owned <==> id < s.nextId && id !in s.freeSet {
      assert IdOk(s, id);
      forall t ensures !Between(s, t, id) {}
    }
  }

  /** What the counters and lists of a quiet store say: the dirty count is the number of changed
      frames, every spill slot below the mark is free or used and not both, the free list names
      each free id once, and a bounded cache has every resident page on its clock. */
  lemma QuietAccounts(s: State, h: History)
    requires Inv(s, h) && Quiet(s)
    ensures s.dirtyCount == |DirtyIds(s)| + h.stray
    ensures forall k: nat {:trigger SlotTaken(s.spill, k)} ::
              k < s.spill.next <==> (k in s.spill.free) != (exists id {:trigger UsedBy(s.spill, k, id)} :: UsedBy(s.spill, k, id))
    ensures Distinct(s.spill.free) && Distinct(s.free) && forall id :: id in s.free <==> id in s.freeSet
    ensures s.capacity > 0 ==> forall id :: id in s.dir ==> id in s.clock
  {
    assert Counting(s) == {} && Straying(s) == {};
    forall k: nat ensures k < s.spill.next <==> (k in s.spill.free) != (exists id {:trigger UsedBy(s.spill, k, id)} :: UsedBy(s.spill, k, id)) {
      if k < s.spill.next { assert SlotTaken(s.spill, k); }
      if id :| UsedBy(s.spill, k, id) { assert SlotOk(s.spill, id); }
    }
    forall id | s.capacity > 0 && id in s.dir ensures id in s.clock {
      assert Clocked(s, id);
      forall t ensures !Ticking(s, t, id) {}
    }
  }

  /** A page carried over, and a page written after `fix`, are both its current content. */
  lemma ImagePage(s: State, h: History, id: nat)
    requires Inv(s, h) && id in Live(h) && Idempotent(h.fix)
    ensures Found(s, id) && Alike(h, Live(h)[id], h.fix(Content(s, id)))
    ensures Unchanged(s, id) ==> id in s.image && Alike(h, Live(h)[id], s.image[id])
  {
    assert Kept(s, h, id) && CleanKept(s, h, id) && NamesFrame(s, id);
  }

  function Cleaned(s: State, f: nat): Frame
    requires f < |s.frames|
  {
    var frame := s.frames[f];
    if frame.id in s.dir && s.dir[frame.id] == f then frame.(dirty := false) else frame
  }

  function AllClean(s: State): seq<Frame> { seq(|s.frames|, f requires 0 <= f < |s.frames| => Cleaned(s, f)) }

  function Attached(s: State, pages: map<nat, Page>): State {
    s.(frames := AllClean(s), dirtyCount := 0, image := pages, spill := Clear(s.spill))
  }

  lemma AttachedContent(s: State, h: History, pages: map<nat, Page>)
    requires ContentOk(s, h) && DirOk(s) && Holds(h, pages)
    ensures ContentOk(Attached(s, pages), h) && DirOk(Attached(s, pages))
  {
    var s2 := Attached(s, pages);
    forall id ensures NamesFrame(s2, id) { assert NamesFrame(s, id); }
    forall id ensures Kept(s2, h, id) { assert Kept(s, h, id); assert NamesFrame(s, id); }
    forall id ensures CleanKept(s2, h, id) { assert Kept(s, h, id); assert NamesFrame(s, id); }
  }

  lemma AttachedFrames(s: State, h: History, pages: map<nat, Page>)
    requires FramesOk(s, h)
    ensures FramesOk(Attached(s, pages), h)
  {
    var s2 := Attached(s, pages);
    forall f: nat ensures LeftAsOf(s2, h, f) { assert LeftAsOf(s, h, f); }
  }

  lemma AttachedDirty(s: State, h: History, pages: map<nat, Page>)
    requires DirOk(s) && Quiet(s)
    ensures DirtyOk(Attached(s, pages), h.(stray := 0))
  {
    var s2 := Attached(s, pages);
    forall id ensures !IsDirty(s2, id) { assert NamesFrame(s, id); }
    assert DirtyIds(s2) == {} && Counting(s2) == {} && Straying(s2) == {};
  }

  lemma AttachedClock(s: State, pages: map<nat, Page>)
    requires ClockOk(s)
    ensures ClockOk(Attached(s, pages))
  {
    var s2 := Attached(s, pages);
    forall id | s2.capacity > 0 && id in s2.dir ensures Clocked(s2, id) {
      assert Clocked(s, id);
      if u :| Ticking(s, u, id) { assert Ticking(s2, u, id); }
    }
  }

  /** Attaching the image of a checkpoint keeps the cache sound. */
  lemma Attaches(s: State, h: History, pages: map<nat, Page>)
    requires Inv(s, h) && Quiet(s) && Holds(h, pages)
    ensures Inv(Attached(s, pages), h.(stray := 0))
  {
    var s2, h2 := Attached(s, pages), h.(stray := 0);
    AttachedContent(s, h, pages);
    AttachedFrames(s, h, pages);
    ContentStays(s2, s2, h, h2);
    AttachedDirty(s, h, pages);
    AttachedClock(s, pages);
    IdsStay(s, s2, h, h2, 0);
    assert SpillOk(s2.spill);
    forall t ensures TaskOk(s2, h2, t) {}
  }

  /** The image and the frames agree afterwards with what each page held before. */
  lemma AttachKeepsContent(s: State, h: History, pages: map<nat, Page>, id: nat)
    requires Inv(s, h) && Quiet(s) && Holds(h, pages) && id in s.owned
    ensures Alike(h, Content(s, id), Content(Attached(s, pages), id))
    ensures Alike(h, Content(s, id), pages[id])
  {
    assert Kept(s, h, id) && NamesFrame(s, id);
  }

  // ----- a store opened on an image

  function Opened(image: map<nat, Page>, free: seq<nat>, freeSet: set<nat>, count: nat): State {
    State([], map[], {}, [], free, freeSet, count, 0, 0, image, Spill(false, map[], map[], [], 0, 0, false),
          None, map[], image.Keys)
  }

  lemma OpenedOk(image: map<nat, Page>, free: seq<nat>, freeSet: set<nat>, count: nat, fix: Page -> Page)
    requires Distinct(free) && (forall id :: id in free <==> id in freeSet)
    requires forall id: nat :: id in freeSet <==> id < count && id !in image
    requires forall id :: id in image ==> id < count
    ensures Inv(Opened(image, free, freeSet, count), History(fix, [image], map[], map[], map[], 0))
  {
    var s, h := Opened(image, free, freeSet, count), History(fix, [image], map[], map[], map[], 0);
    assert Live(h) == image;
    forall id ensures Kept(s, h, id) && CleanKept(s, h, id) && NamesFrame(s, id) {}
    forall f: nat ensures LeftAsOf(s, h, f) {}
    forall id: nat ensures IdOk(s, id) {}
    forall t, id ensures BetweenOk(s, t, id) {}
    forall t ensures TaskOk(s, h, t) {}
    forall id ensures SlotOk(s.spill, id) {}
    assert DirtyIds(s) == {} && Counting(s) == {} && Straying(s) == {};
  }
}
