/** The clustered tree itself: one page store, one root, and the operations that read and change
    them page by page. */
module BLinkTree {
  import opened Bytes
  import opened Distinctness
  import opened BLinkNode
  import opened BLinkInvariant
  import opened BLinkReader
  import opened BLinkSteps
  import opened BLinkPacking
  import opened BLinkSplit
  import opened BLinkChain
  import opened BLinkPublish
  import opened BLinkLeafWrite
  import opened BLinkRows
  import opened BLinkMoments
  import opened BLinkOps
  import opened BLinkWalks

  class ClusteredTree {
    var pages: map<PageId, Node>
    var root: PageId
    var free: seq<PageId>
    var next: PageId
    ghost var nodes: map<PageId, Place>
    ghost var chains: map<PageId, seq<PageId>>
    ghost var trace: seq<Snap>
    ghost var retired: set<PageId>
    /** How many page allocations and writes have failed. */
    ghost var faults: nat

    ghost function Now(): Snap
      reads this
    {
      Snap(pages, root, nodes, chains)
    }

    /** The allocator: live pages and recycled ids are disjoint and below the next fresh id. */
    ghost predicate StoreOk()
      reads this
    {
      && next <= INF_KEY
      && (forall p :: p in pages ==> p < next && p !in free)
      && (forall i :: 0 <= i < |free| ==> free[i] < next)
      && Distinct(free)
    }

    /** A new empty tree: a single leaf root. */
    constructor ()
      ensures Ready() && Table(Now()) == map[] && retired == {}
      ensures root == 0 && nodes == map[0 := Place(0, 0)] && faults == 0
    {
      pages := map[0 := Leaf(None, INF_KEY, [])];
      root, free, next := 0, [], 1;
      nodes, chains, retired, faults := map[0 := Place(0, 0)], map[], {}, 0;
      trace := [Snap(map[0 := Leaf(None, INF_KEY, [])], 0, map[0 := Place(0, 0)], map[])];
      new;
      EmptyTree(Now());
    }

    // --- the page store ------------------------------------------------------------------------

    /** A zeroed page with a recycled or fresh id; a failure changes nothing. */
    method AllocatePage() returns (id: Option<PageId>)
      requires StoreOk() && Recorded(trace, Now())
      modifies `pages, `free, `next, `trace, `faults
      ensures StoreOk() && Recorded(trace, Now()) && Steady(old(trace), trace, old(Rows(Now())))
      ensures SameTree(old(Now()), Now()) && Rows(Now()) == old(Rows(Now()))
      ensures id.None? ==> pages == old(pages)
      ensures id.Some? ==> id.value !in old(pages) && id.value < INF_KEY && pages == old(pages)[id.value := ZERO_PAGE]
      ensures faults == old(faults) + if id.None? then 1 else 0
    {
      hide Rows, ChainsOk, StubsOk, KeepsChains;
      if * { faults := faults + 1; return None; }
      var unused: PageId;
      if |free| > 0 {
        unused := free[|free| - 1];
        free := free[..|free| - 1];
      } else if next == INF_KEY {
        faults := faults + 1;
        return None;
      } else {
        unused := next;
        next := next + 1;
      }
      ghost var s := Now();
      pages := pages[unused := ZERO_PAGE];
      RecordedNow(trace, s);
      OutsideStep(s, Now(), unused, ZERO_PAGE);
      TraceGrows(trace, s, Now());
      trace := trace + [Now()];
      return Some(unused);
    }

    /** One atomic page write, after which the store stands at `t`; a failure changes nothing. */
    method WritePage(id: PageId, n: Node, ghost t: Snap) returns (ok: bool)
      requires StoreOk() && id in pages
      requires t.pages == pages[id := n] && t.root == root
      modifies `pages, `nodes, `chains, `trace, `faults
      ensures StoreOk()
      ensures ok ==> Now() == t && trace == old(trace) + [t]
      ensures !ok ==> Now() == old(Now()) && trace == old(trace)
      ensures old(Recorded(trace, Now())) && (!ok || Step(old(Now()), t)) ==> Recorded(trace, Now())
      ensures faults == old(faults) + if !ok then 1 else 0
    {
      if * { faults := faults + 1; return false; }
      ghost var s, tr := Now(), trace;
      pages := pages[id := n];
      nodes, chains := t.nodes, t.chains;
      trace := trace + [Now()];
      if Recorded(tr, s) && Step(s, t) { TraceGrows(tr, s, t); }
      return true;
    }

    /** Give a page that nothing refers to back; its id may be handed out again. */
    method DeallocatePage(id: PageId)
      requires StoreOk() && Recorded(trace, Now()) && id in pages && id !in nodes && NotChained(chains, id)
      modifies `pages, `free, `trace
      ensures StoreOk() && Recorded(trace, Now()) && Steady(old(trace), trace, old(Rows(Now())))
      ensures pages == old(pages) - {id} && Rows(Now()) == old(Rows(Now()))
    {
      hide Recorded, Rows;
      ghost var s := Now();
      pages := pages - {id};
      free := free + [id];
      RemoveStep(trace, s, id);
      trace := trace + [Now()];
    }

    /** Give pages that nothing refers to back, one by one. */
    method DeallocateAll(ids: seq<PageId>)
      requires StoreOk() && Recorded(trace, Now()) && Distinct(ids)
      requires forall i :: 0 <= i < |ids| ==> ids[i] in pages && ids[i] !in nodes && NotChained(chains, ids[i])
      modifies `pages, `free, `trace
      ensures StoreOk() && Recorded(trace, Now()) && Steady(old(trace), trace, old(Rows(Now())))
      ensures pages == old(pages) - (set x | x in ids) && Rows(Now()) == old(Rows(Now()))
    {
      hide Recorded, Rows;
      var i := 0;
      while i < |ids|
        invariant 0 <= i <= |ids| && StoreOk() && Recorded(trace, Now())
        invariant Steady(old(trace), trace, old(Rows(Now()))) && Rows(Now()) == old(Rows(Now()))
        invariant pages == old(pages) - (set x | x in ids[..i])
        invariant forall j :: i <= j < |ids| ==> ids[j] in pages
      {
        DeallocatePage(ids[i]);
        assert ids[..i + 1] == ids[..i] + [ids[i]];
        i := i + 1;
      }
      assert ids[..i] == ids;
    }

    // --- descending ----------------------------------------------------------------------------

    /** From the root to the leaf whose range contains `key`, with the interior pages passed on
        the way. */
    method Descend(key: Key) returns (path: seq<PageId>, at: PageId)
      requires Inv(Now())
      ensures at in nodes && nodes[at].level == 0 && InRange(pages[at], nodes[at].low, key)
      ensures PathOk(Now(), path, at) && |path| == Top(Now())
    {
      path := [];
      at := root;
      while true
        invariant OnCourse(Now(), at, key) && PathOk(Now(), path, at)
        invariant |path| + nodes[at].level == Top(Now())
        decreases nodes[at].level
      {
        at := Chase(at, key, path);
        if pages[at].Leaf? { return; }
        StepOnCourse(Now(), at, key);
        var child := Route(pages[at], key);
        PathExtends(Now(), path, at, child);
        path := path + [at];
        at := child;
      }
    }

    /** Follow right links while `key` lies at or beyond the node's high key. */
    method Chase(start: PageId, key: Key, ghost path: seq<PageId>) returns (at: PageId)
      requires Inv(Now()) && OnCourse(Now(), start, key) && PathOk(Now(), path, start)
      ensures OnCourse(Now(), at, key) && !Passed(pages[at], key)
      ensures nodes[at].level == nodes[start].level && PathOk(Now(), path, at)
    {
      at := start;
      while Passed(pages[at], key)
        invariant OnCourse(Now(), at, key) && nodes[at].level == nodes[start].level && PathOk(Now(), path, at)
        decreases NodesAbove(Now(), nodes[at].low)
      {
        ghost var q := pages[at].link.value;
        StepOnCourse(Now(), at, key);
        LinkAscends(Now(), at);
        PathShifts(Now(), path, at, q);
        at := pages[at].link.value;
      }
    }

    /** The leaf entry under `key`, if any. */
    method GetStored(key: Key) returns (found: Option<Entry>)
      requires Inv(Now())
      ensures found == RowAt(Now(), key)
    {
      var at := root;
      while true
        invariant OnCourse(Now(), at, key)
        decreases nodes[at].level
      {
        at := Chase(at, key, []);
        if pages[at].Leaf? {
          assert NodeOk(Now(), at);
          found := LeafFind(pages[at].entries, key);
          FindInLeaf(Now(), at, key);
          return;
        }
        StepOnCourse(Now(), at, key);
        at := Route(pages[at], key);
      }
    }

    // --- publishing separators -----------------------------------------------------------------

    /** Allocate a page and write `n` to it; nothing refers to the page yet. */
    method WriteNewPage(n: Node) returns (id: Option<PageId>)
      requires StoreOk() && Recorded(trace, Now())
      modifies `pages, `free, `next, `trace, `nodes, `chains, `faults
      ensures StoreOk() && Recorded(trace, Now()) && Steady(old(trace), trace, old(Rows(Now())))
      ensures SameTree(old(Now()), Now()) && Outside(old(Now()), Now())
      ensures id.Some? ==> id.value !in old(pages) && id.value !in nodes && pages == old(pages)[id.value := n]
      ensures faults == old(faults) + if id.None? then 1 else 0
    {
      hide Recorded, Inv, ChainsOk, KeepsChains, Rows;
      ghost var s0 := Now();
      NodesHavePages(trace, s0);
      id := AllocatePage();
      if id.None? { return; }
      ghost var s1 := Now();
      RecordedNow(trace, s1);
      ghost var s2 := s1.(pages := s1.pages[id.value := n]);
      OutsideStep(s1, s2, id.value, n);
      var ok := WritePage(id.value, n, s2);
      if !ok { id := None; }
    }

    /** Grow a new interior root over `left` and `right`: its page is written first, then the
        root moves. */
    method GrowNewRoot(left: PageId, sep: Key, right: PageId, ghost pending: set<PageId>) returns (st: Status)
      requires StoreOk() && Recorded(trace, Now())
      requires left in nodes && left in pages && IsNode(pages[left]) && sep == pages[left].high
      modifies `pages, `free, `next, `trace, `nodes, `chains, `root, `faults
      ensures st.Failed? ==> st.error == Io
      ensures StoreOk() && chains == old(chains)
      ensures st.Done? ==> root !in old(pages) && Now() == GrowRoot(old(Now()), root, left, right)
      ensures old(CanPublish(Now(), [], left, right, pending)) ==>
                PublishOutcome(old(Now()), Now(), old(trace), trace, left, right, pending, st)
      ensures faults == old(faults) + if st.Failed? then 1 else 0
    {
      hide Recorded, Steady, CanPublish, PublishOutcome, Outside;
      ghost var s0, tr0 := Now(), trace;
      var id := WriteNewPage(FreshRoot(left, sep, right));
      if id.None? {
        StalledOutcome(s0, Now(), tr0, trace, [], left, right, pending);
        return Failed(Io);
      }
      ghost var s, tr := Now(), trace;
      root := id.value;
      nodes := nodes[id.value := Place(nodes[left].level + 1, nodes[left].low)];
      trace := trace + [Now()];
      GrownOutcome(s0, s, tr0, tr, left, sep, right, id.value, pending);
      return Done;
    }

    /** Name `right`, the new right sibling of `left`, in `left`'s parent, splitting interior
        nodes upward as needed. The recorded parent may have split since: its right siblings are
        searched for the one that names `left`, and one always does. */
    method PublishSeparator(path: seq<PageId>, left: PageId, sep: Key, right: PageId, ghost pending: set<PageId>)
      returns (st: Status)
      requires StoreOk() && Recorded(trace, Now())
      requires left in nodes && left in pages && IsNode(pages[left]) && sep == pages[left].high
      requires path != [] ==> CanPublish(Now(), path, left, right, pending)
      modifies `pages, `free, `next, `trace, `nodes, `chains, `root, `faults
      ensures st.Failed? ==> st.error == Io
      ensures StoreOk() && chains == old(chains)
      ensures path == [] && st.Done? ==> root !in old(pages) && Now() == GrowRoot(old(Now()), root, left, right)
      ensures old(CanPublish(Now(), path, left, right, pending)) ==>
                PublishOutcome(old(Now()), Now(), old(trace), trace, left, right, pending, st)
      decreases |path|, 1
      ensures faults == old(faults) + if st.Failed? then 1 else 0
    {
      hide Recorded, CanPublish, PublishOutcome, WithSlot, InteriorFits;
      if path == [] {
        st := GrowNewRoot(left, sep, right, pending);
        return;
      }
      ghost var s0, tr0 := Now(), trace;
      var parent := FindParent(path, left, right, pending);
      var page := WithSlot(pages[parent], left, sep, right);
      if InteriorFits(page.slots) {
        ghost var t := InsertSlot(s0, parent, left, right);
        FittedOutcome(s0, tr0, path, parent, left, right, pending);
        var ok := WritePage(parent, page, t);
        st := if ok then Done else Failed(Io);
      } else {
        st := SplitParent(path, parent, page, left, right, pending);
      }
    }

    /** Split the over-full interior `parent`, whose new slots are those of `page`: the upper half
        goes to a new right sibling, written first, and the middle separator moves up. */
    method SplitParent(path: seq<PageId>, parent: PageId, page: Node, left: PageId, right: PageId, ghost pending: set<PageId>)
      returns (st: Status)
      requires StoreOk() && Recorded(trace, Now())
      requires path != [] && CanPublish(Now(), path, left, right, pending) && ParentOf(Now(), parent, left)
      requires path[|path| - 1] in nodes && nodes[path[|path| - 1]].low <= nodes[parent].low
      requires page == WithSlot(pages[parent], left, pages[left].high, right) && !InteriorFits(page.slots)
      modifies `pages, `free, `next, `trace, `nodes, `chains, `root, `faults
      ensures st.Failed? ==> st.error == Io
      ensures StoreOk() && chains == old(chains)
      ensures PublishOutcome(old(Now()), Now(), old(trace), trace, left, right, pending, st)
      decreases |path|, 0
      ensures faults == old(faults) + if st.Failed? then 1 else 0
    {
      hide Recorded, CanPublish, PublishOutcome, WithSlot, ParentSplit, Steady, Outside;
      ghost var s0, tr0 := Now(), trace;
      var mid := |page.slots| / 2;
      var id := WriteNewPage(UpperHalf(page, mid));
      if id.None? {
        StalledOutcome(s0, Now(), tr0, trace, path, left, right, pending);
        return Failed(Io);
      }
      var q := id.value;
      ghost var s, tr := Now(), trace;
      SplitStep(s0, s, tr, path, parent, page, left, right, q, pending);
      ghost var u := ParentSplit(s, parent, left, right, q);
      var lower := LowerHalf(page, mid, q);
      var ok := WritePage(parent, lower, u);
      if !ok {
        StalledOutcome(s0, Now(), tr0, trace, path, left, right, pending);
        return Failed(Io);
      }
      st := PublishSeparator(path[..|path| - 1], parent, page.slots[mid].sep, q, pending - {right} + {q});
      CascadeOutcome(s0, s, Now(), tr0, tr, trace, path, parent, page, left, right, q, pending, st);
    }

    /** The interior node that names `left`: the last of `path` or one of its right siblings. */
    method FindParent(path: seq<PageId>, left: PageId, ghost right: PageId, ghost pending: set<PageId>)
      returns (parent: PageId)
      requires path != [] && CanPublish(Now(), path, left, right, pending)
      ensures ParentOf(Now(), parent, left)
      ensures path[|path| - 1] in nodes && nodes[path[|path| - 1]].low <= nodes[parent].low
    {
      ghost var s := Now();
      assert PathAt(s, path, left, |path| - 1);
      assert Published(s, left) || left == root;
      parent := path[|path| - 1];
      while !Holds(pages[parent], left)
        invariant parent in nodes && nodes[parent].level == nodes[left].level + 1
        invariant nodes[path[|path| - 1]].low <= nodes[parent].low <= nodes[left].low
        decreases NodesAbove(s, nodes[parent].low)
      {
        ChaseParent(s, parent, left);
        parent := pages[parent].link.value;
      }
    }

    // --- writing a leaf ------------------------------------------------------------------------

    /** `count` fresh pages; on a failure those allocated so far are in `ids`. */
    method AllocatePages(count: nat) returns (ids: seq<PageId>, ok: bool)
      requires StoreOk() && Recorded(trace, Now())
      modifies `pages, `free, `next, `trace, `faults
      ensures StoreOk() && Recorded(trace, Now()) && Steady(old(trace), trace, old(Rows(Now())))
      ensures Rows(Now()) == old(Rows(Now()))
      ensures ok ==> |ids| == count
      ensures NewPages(old(pages), pages, ids)
      ensures forall i :: 0 <= i < |ids| ==> pages[ids[i]] == ZERO_PAGE && ids[i] < INF_KEY
      ensures faults == old(faults) + if !ok then 1 else 0
    {
      hide Recorded, Rows, SameTree;
      ids := [];
      while |ids| < count
        invariant faults == old(faults)
        invariant |ids| <= count
        invariant StoreOk() && Recorded(trace, Now()) && Steady(old(trace), trace, old(Rows(Now())))
        invariant Rows(Now()) == old(Rows(Now()))
        invariant NewPages(old(pages), pages, ids)
        invariant forall i :: 0 <= i < |ids| ==> pages[ids[i]] == ZERO_PAGE && ids[i] < INF_KEY
      {
        var id := AllocatePage();
        if id.None? { return ids, false; }
        ids := ids + [id.value];
      }
      ok := true;
    }

    /** Pages for the new siblings of `leaf`, which comes first in the result. */
    method AllocateSiblings(leaf: PageId, count: nat) returns (ids: seq<PageId>, ok: bool)
      requires StoreOk() && Recorded(trace, Now()) && leaf in pages && count > 0
      modifies `pages, `free, `next, `trace, `faults
      ensures StoreOk() && Recorded(trace, Now()) && Steady(old(trace), trace, old(Rows(Now())))
      ensures SameTree(old(Now()), Now()) && Outside(old(Now()), Now()) && Rows(Now()) == old(Rows(Now()))
      ensures forall x :: x in old(pages) ==> x in pages && pages[x] == old(pages[x])
      ensures ok ==> |ids| == count && ids[0] == leaf && Distinct(ids)
      ensures ok ==> forall i :: 1 <= i < |ids| ==> ids[i] !in old(pages) && ids[i] !in nodes && ids[i] in pages && pages[ids[i]] == ZERO_PAGE
      ensures ok ==> forall x :: x in pages ==> x in old(pages) || x in ids
      ensures faults == old(faults) + if !ok then 1 else 0
    {
      hide Recorded, Rows;
      NodesHavePages(trace, Now());
      ids, ok := AllocatePages(count - 1);
      ids := [leaf] + ids;
    }

    /** Write a page that no node or chain refers to. */
    method WriteOutside(id: PageId, n: Node) returns (ok: bool)
      requires StoreOk() && Recorded(trace, Now()) && id in pages && id !in nodes && !pages[id].Overflow?
      modifies `pages, `trace, `nodes, `chains, `faults
      ensures StoreOk() && Recorded(trace, Now()) && Steady(old(trace), trace, old(Rows(Now())))
      ensures Rows(Now()) == old(Rows(Now())) && SameTree(old(Now()), Now())
      ensures nodes == old(nodes) && chains == old(chains)
      ensures pages == if ok then old(pages)[id := n] else old(pages)
      ensures faults == old(faults) + if !ok then 1 else 0
    {
      hide Recorded, Rows, Inv, ChainsOk, KeepsChains;
      ghost var s := Now();
      NodesHavePages(trace, s);
      RecordedNow(trace, s);
      ghost var t := s.(pages := s.pages[id := n]);
      OutsideStep(s, t, id, n);
      ok := WritePage(id, n, t);
    }

    /** Write the new siblings right to left, so that each links to a page already written. */
    method WriteSiblings(ids: seq<PageId>, chunks: seq<seq<Entry>>) returns (ok: bool)
      requires StoreOk() && Recorded(trace, Now())
      requires |ids| == |chunks| > 0 && Distinct(ids) && ids[0] in pages && IsNode(pages[ids[0]])
      requires forall i :: 1 <= i < |ids| ==> ids[i] in pages && ids[i] !in nodes && !pages[ids[i]].Overflow?
      modifies `pages, `trace, `nodes, `chains, `faults
      ensures StoreOk() && Recorded(trace, Now()) && Steady(old(trace), trace, old(Rows(Now())))
      ensures Rows(Now()) == old(Rows(Now())) && nodes == old(nodes) && chains == old(chains)
      ensures pages.Keys == old(pages.Keys) && pages[ids[0]] == old(pages[ids[0]])
      ensures forall x :: x in pages && x !in ids[1..] ==> pages[x] == old(pages[x])
      ensures forall i :: 1 <= i < |ids| ==> !pages[ids[i]].Overflow?
      ensures ok ==> SiblingsWritten(Now(), ids, chunks, 1)
      ensures faults == old(faults) + if !ok then 1 else 0
    {
      hide Recorded, Rows, SameTree, ChunkLeaf;
      ghost var s0 := Now();
      assert ids[0] !in ids[1..];
      var link, high := pages[ids[0]].link, pages[ids[0]].high;
      var index := |ids| - 1;
      while index > 0
        invariant faults == old(faults)
        invariant 0 <= index < |ids|
        invariant StoreOk() && Recorded(trace, Now()) && Steady(old(trace), trace, old(Rows(Now())))
        invariant Rows(Now()) == Rows(s0) && nodes == s0.nodes && chains == s0.chains
        invariant pages.Keys == s0.pages.Keys && pages[ids[0]] == s0.pages[ids[0]]
        invariant forall x :: x in pages && x !in ids[1..] ==> pages[x] == s0.pages[x]
        invariant forall i :: 1 <= i < |ids| ==> !pages[ids[i]].Overflow?
        invariant SiblingsWritten(Now(), ids, chunks, index + 1)
      {
        var id := ids[index];
        assert id in ids[1..] by { assert ids[1..][index - 1] == id; }
        var page := ChunkLeaf(ids, chunks, link, high, index);
        ChunkIsLeaf(ids, chunks, link, high, index);
        ok := WriteOutside(id, page);
        if !ok { return; }
        index := index - 1;
      }
      ok := true;
    }

    /** Publish the separators of a split left to right, each along the recorded path. */
    method PublishAll(path: seq<PageId>, ids: seq<PageId>, chunks: seq<seq<Entry>>) returns (st: Status)
      requires StoreOk() && Recorded(trace, Now())
      requires PublishedUpTo(Now(), Now(), path, ids, chunks, 0)
      modifies `pages, `free, `next, `trace, `nodes, `chains, `root, `faults
      ensures st.Failed? ==> st.error == Io
      ensures StoreOk() && chains == old(chains)
      ensures path != [] || |ids| == 2 ==>
                && Recorded(trace, Now()) && Steady(old(trace), trace, old(Rows(Now())))
                && AllFit(Now()) && Outside(old(Now()), Now()) && Rows(Now()) == old(Rows(Now()))
                && (st.Done? ==> Complete(Now(), {}) && NewAreNodes(old(Now()), Now()))
      ensures path == [] && |ids| == 3 && st.Done? ==> LostBelow(Now(), chunks[1][0].key)
      ensures faults == old(faults) + if st.Failed? then 1 else 0
    {
      hide Recorded, Rows, CanPublish, PublishDone, PublishedUpTo, PublishOutcome;
      ghost var u, tr0 := Now(), trace;
      PublishedShape(u, u, path, ids, chunks, 0);
      var i := 0;
      while i + 1 < |ids|
        invariant faults == old(faults)
        invariant 0 <= i < |ids| && StoreOk() && chains == u.chains
        invariant path != [] || i == 0 ==> PublishingTo(u, Now(), tr0, trace, path, ids, chunks, i)
        invariant i == 0 ==> Now() == u
        invariant path == [] && i == 1 ==> root !in u.pages && Now() == GrowRoot(u, root, ids[0], ids[1])
        invariant path == [] && i == 1 ==> PublishingTo(u, Now(), tr0, trace, path, ids, chunks, i)
        invariant path == [] && i == 2 && |ids| == 3 ==> LostBelow(Now(), chunks[1][0].key)
      {
        ghost var s, tr := Now(), trace;
        PublishedShape(u, s, path, ids, chunks, i);
        if path != [] || i == 0 { CanPublishNext(u, s, path, ids, chunks, i); }
        st := PublishSeparator(path, ids[i], chunks[i + 1][0].key, ids[i + 1], After(ids, i + 1));
        if path != [] || i == 0 {
          PublishedOne(u, s, Now(), tr0, tr, trace, path, ids, chunks, i, st);
        } else {
          if st.Done? && |ids| == 3 { LostAll(u, s.root, Now(), path, ids, chunks); }
        }
        if st.Failed? { return; }
        i := i + 1;
      }
      st := Done;
      if path != [] || |ids| == 2 { PublishedShape(u, Now(), path, ids, chunks, i); }
    }

    /** Write a leaf back with the entries `es`, splitting it when they no longer fit; the chains
        `cs` are published with it. */
    method WriteLeafOrSplit(path: seq<PageId>, leaf: PageId, es: seq<Entry>, ghost pos: nat,
                            ghost cs: map<PageId, seq<PageId>>)
      returns (st: Status)
      requires StoreOk() && Recorded(trace, Now()) && AllFit(Now()) && Complete(Now(), {})
      requires LeafChange(Now(), path, leaf, es, pos) && ChainsReady(Now(), cs)
      requires StubsOk(Rewrite(Now(), leaf, es).(chains := cs))
      modifies `pages, `free, `next, `trace, `nodes, `chains, `root, `faults
      ensures st.Failed? ==> st.error == Io
      ensures StoreOk()
      ensures !TripleRoot(path, es) ==> LeafOutcome(old(Now()), Now(), old(trace), trace, leaf, es, cs, st)
      ensures TripleRoot(path, es) && st.Done? ==>
                && Pack(es, [])[1] != [] && LostBelow(Now(), Pack(es, [])[1][0].key)
      ensures LeafFits(es) ==> nodes == old(nodes) && root == old(root)
      ensures faults == old(faults) + if st.Failed? then 1 else 0
    {
      hide Recorded, Rows, AllFit, Complete, LeafFits, Pack, LeafOutcome, StubsOk, Steady, Outside, ChainsReady, PublishedUpTo;
      ghost var s0, tr0 := Now(), trace;
      var n := pages[leaf];
      if LeafFits(es) {
        ghost var t := Rewrite(s0, leaf, es).(chains := cs);
        LeafFitsOutcome(s0, tr0, path, leaf, es, pos, cs);
        var ok := WritePage(leaf, n.(entries := es), t);
        return if ok then Done else Failed(Io);
      }
      st := SplitLeafPage(path, leaf, es, pos, cs);
    }

    /** Pack the entries of an overflowing leaf into the leaf and new right siblings, and publish
        their separators. */
    method SplitLeafPage(path: seq<PageId>, leaf: PageId, es: seq<Entry>, ghost pos: nat,
                         ghost cs: map<PageId, seq<PageId>>)
      returns (st: Status)
      requires StoreOk() && Recorded(trace, Now()) && AllFit(Now()) && Complete(Now(), {})
      requires LeafChange(Now(), path, leaf, es, pos) && ChainsReady(Now(), cs) && !LeafFits(es)
      requires StubsOk(Rewrite(Now(), leaf, es).(chains := cs))
      modifies `pages, `free, `next, `trace, `nodes, `chains, `root, `faults
      ensures st.Failed? ==> st.error == Io
      ensures StoreOk()
      ensures !TripleRoot(path, es) ==> LeafOutcome(old(Now()), Now(), old(trace), trace, leaf, es, cs, st)
      ensures TripleRoot(path, es) && st.Done? ==>
                && Pack(es, [])[1] != [] && LostBelow(Now(), Pack(es, [])[1][0].key)
      ensures faults == old(faults) + if st.Failed? then 1 else 0
    {
      hide Recorded, Rows, AllFit, Complete, LeafFits, Pack, Steady, ChainsReady, StubsOk, PublishedUpTo, SplitTarget, ReadyToSplit, Inv, LeafChange, SameTree, Outside, Spread, LeafOutcome, NewAreNodes, Step;
      ghost var s0, tr0 := Now(), trace;
      LeafChangeShape(s0, path, leaf, es, pos);
      var n := pages[leaf];
      var chunks := PackLeaf(es);
      PackedReady(s0, path, leaf, es, pos, []);
      var ids, ok := SpreadSiblings(leaf, chunks);
      ghost var s, tr := Now(), trace;
      StalledLeaf(s0, s, tr0, tr, path, leaf, es, pos, cs);
      if !ok { return Failed(Io); }
      SplitWritten(s0, s, tr, path, leaf, es, pos, ids, cs);
      ghost var u := SplitTarget(s, ids, chunks, es).(chains := cs);
      ok := WritePage(leaf, ChunkLeaf(ids, chunks, n.link, n.high, 0), u);
      if !ok { return Failed(Io); }
      st := PublishAll(path, ids, chunks);
      if !TripleRoot(path, es) {
        SplitOutcome(s0, s, u, Now(), tr0, tr, trace, leaf, es, cs, ids, st);
      }
    }

    /** Put all chunks but the first on new pages, which nothing refers to yet. */
    method SpreadSiblings(leaf: PageId, chunks: seq<seq<Entry>>) returns (ids: seq<PageId>, ok: bool)
      requires StoreOk() && Recorded(trace, Now()) && leaf in pages && IsNode(pages[leaf]) && |chunks| > 0
      modifies `pages, `free, `next, `trace, `nodes, `chains, `faults
      ensures StoreOk() && Recorded(trace, Now()) && Steady(old(trace), trace, old(Rows(Now())))
      ensures SameTree(old(Now()), Now()) && Outside(old(Now()), Now()) && root == old(root)
      ensures leaf in pages && pages[leaf] == old(pages[leaf])
      ensures ok ==> Spread(old(Now()), Now(), leaf, chunks, ids)
      ensures faults == old(faults) + if !ok then 1 else 0
    {
      hide Recorded, Rows, Steady, SiblingsWritten;
      ghost var s0, tr0 := Now(), trace;
      ids, ok := AllocateSiblings(leaf, |chunks|);
      if !ok { return; }
      ghost var s1, tr1 := Now(), trace;
      ok := WriteSiblings(ids, chunks);
      SiblingsOutside(s0, s1, Now(), ids);
      SteadyThrough(tr0, tr1, trace, Rows(s0));
    }

    // --- overflow chains -----------------------------------------------------------------------

    /** Fresh pages linked into a chain that holds `pieces`, the last page written first, so that
        every link points at a page already written. A failure gives every page back. */
    method FillChain(pieces: seq<seq<byte>>) returns (ids: seq<PageId>, ok: bool)
      requires StoreOk() && Recorded(trace, Now())
      modifies `pages, `free, `next, `trace, `nodes, `chains, `faults
      ensures StoreOk() && Recorded(trace, Now()) && Steady(old(trace), trace, old(Rows(Now())))
      ensures nodes == old(nodes) && chains == old(chains) && Rows(Now()) == old(Rows(Now()))
      ensures !ok ==> pages == old(pages)
      ensures ok ==> |ids| == |pieces| && NewPages(old(pages), pages, ids) && ChainTail(Now(), ids, pieces, 0)
      ensures ok ==> forall i :: 0 <= i < |ids| ==> ids[i] < INF_KEY && NotChained(chains, ids[i])
      ensures faults == old(faults) + if !ok then 1 else 0
    {
      hide Recorded, Rows, SameTree, Outside;
      ghost var s0 := Now();
      ids, ok := AllocatePages(|pieces|);
      NewNotChained(old(trace), s0, ids);
      if ok {
        ok := WritePieces(ids, pieces);
      }
      if !ok {
        DeallocateAll(ids);
        assert pages == s0.pages;
      }
    }

    /** Write `bytes` over fresh chain pages; a failure gives every page back. */
    method WriteChain(bytes: seq<byte>) returns (first: Option<PageId>, ghost ids: seq<PageId>)
      requires StoreOk() && Recorded(trace, Now()) && bytes != []
      modifies `pages, `free, `next, `trace, `nodes, `chains, `faults
      ensures StoreOk() && Recorded(trace, Now()) && Steady(old(trace), trace, old(Rows(Now())))
      ensures nodes == old(nodes) && chains == old(chains) && Rows(Now()) == old(Rows(Now()))
      ensures first.None? ==> pages == old(pages)
      ensures first.Some? ==> NewChain(old(Now()), Now(), first.value, ids, bytes)
      ensures faults == old(faults) + if first.None? then 1 else 0
    {
      hide Recorded, Rows, SameTree, Outside, Steady, NewPages, ChainTail;
      var pieces := Pieces(bytes);
      PiecesJoin(bytes);
      var pageIds, ok := FillChain(pieces);
      ids := pageIds;
      if !ok { return None, ids; }
      RecordedNow(trace, Now());
      NewPagesDistinct(old(pages), pages, ids);
      NewChainReady(Now(), ids, pieces);
      first := Some(pageIds[0]);
    }

    /** Fill the pages of a chain, the last one first. */
    method WritePieces(ids: seq<PageId>, pieces: seq<seq<byte>>) returns (ok: bool)
      requires StoreOk() && Recorded(trace, Now()) && |ids| == |pieces| && Distinct(ids)
      requires forall i :: 0 <= i < |ids| ==> ids[i] in pages && ids[i] !in nodes && !pages[ids[i]].Overflow?
      modifies `pages, `trace, `nodes, `chains, `faults
      ensures StoreOk() && Recorded(trace, Now()) && Steady(old(trace), trace, old(Rows(Now())))
      ensures nodes == old(nodes) && chains == old(chains) && Rows(Now()) == old(Rows(Now()))
      ensures pages.Keys == old(pages.Keys)
      ensures forall x :: x in pages && x !in ids ==> pages[x] == old(pages[x])
      ensures ok ==> ChainTail(Now(), ids, pieces, 0)
      ensures faults == old(faults) + if !ok then 1 else 0
    {
      hide Recorded, Rows, SameTree;
      var n := |ids|;
      var next: Option<PageId> := None;
      while n > 0
        invariant faults == old(faults)
        invariant 0 <= n <= |ids|
        invariant StoreOk() && Recorded(trace, Now()) && Steady(old(trace), trace, old(Rows(Now())))
        invariant nodes == old(nodes) && chains == old(chains) && Rows(Now()) == old(Rows(Now()))
        invariant pages.Keys == old(pages.Keys)
        invariant forall x :: x in pages && x !in ids ==> pages[x] == old(pages[x])
        invariant forall i :: 0 <= i < n ==> !pages[ids[i]].Overflow?
        invariant next == if n < |ids| then Some(ids[n]) else None
        invariant ChainTail(Now(), ids, pieces, n)
      {
        n := n - 1;
        ghost var s := Now();
        ok := WriteOutside(ids[n], Overflow(next, pieces[n]));
        if !ok { return; }
        forall i | n <= i < |ids|
          ensures ChainPage(Now(), ids, i) && pages[ids[i]].payload == pieces[i]
        {
          if i > n { assert ChainPage(s, ids, i); }
        }
        next := Some(ids[n]);
      }
      ok := true;
    }

    /** The leaf entry for `tuple`: the value itself, or a stub over a freshly written chain. */
    method MakeEntry(key: Key, tuple: seq<byte>) returns (r: Result<Entry>, ghost ids: seq<PageId>)
      requires StoreOk() && Recorded(trace, Now())
      modifies `pages, `free, `next, `trace, `nodes, `chains, `faults
      ensures StoreOk() && Recorded(trace, Now()) && Steady(old(trace), trace, old(Rows(Now())))
      ensures nodes == old(nodes) && chains == old(chains) && Rows(Now()) == old(Rows(Now()))
      ensures NewPages(old(pages), pages, ids)
      ensures r.Err? ==> ids == [] && pages == old(pages) && r.error in {Io, TooLarge}
      ensures r == Err(TooLarge) <==> |tuple| > MAX_CHAINED
      ensures r == Err(TooLarge) ==> trace == old(trace)
      ensures r.Ok? ==>
                && EntryReady(Now(), r.value, key, tuple, WithChain(chains, r.value, ids))
                && (r.value.overflow <==> ids != []) && (r.value.overflow <==> |tuple| > MAX_TUPLE)
      ensures faults == old(faults) + if r == Err(Io) then 1 else 0
    {
      hide Recorded, Rows;
      ids := [];
      if |tuple| <= MAX_TUPLE {
        InlineEntry(trace, Now(), key, tuple);
        return Ok(Entry(key, tuple, false)), [];
      }
      if |tuple| > MAX_CHAINED {
        return Err(TooLarge), [];
      }
      var prefix, rest := tuple[..OVERFLOW_INLINE_PREFIX], tuple[OVERFLOW_INLINE_PREFIX..];
      ghost var s := Now();
      var first;
      first, ids := WriteChain(rest);
      if first.None? {
        return Err(Io), [];
      }
      ChainedEntry(s, Now(), key, tuple, first.value, ids);
      return Ok(Entry(key, EncodeStub(Stub(prefix, |tuple|, first.value)), true)), ids;
    }

    /** Every page of the chain that starts at `first`, for a value of `total` bytes: exactly as
        many as that length takes. */
    method ChainPages(first: PageId, total: nat, ghost ids: seq<PageId>) returns (out: seq<PageId>)
      requires |ids| == ChainLen(total) && ids[0] == first
      requires forall i {:trigger ChainPage(Now(), ids, i)} :: 0 <= i < |ids| ==> ChainPage(Now(), ids, i)
      ensures out == ids
    {
      ghost var s := Now();
      out := [];
      var at := Some(first);
      while at.Some?
        invariant |out| <= |ids| && out == ids[..|out|]
        invariant at == if |out| < |ids| then Some(ids[|out|]) else None
        decreases |ids| - |out|
      {
        assert ChainPage(s, ids, |out|);
        assert |out| < ChainLen(total) && pages[at.value].Overflow?;
        out := out + [at.value];
        at := pages[at.value].next;
      }
    }

    /** The chain pages an entry references: none for an inline value. */
    method RetiredChain(e: Entry) returns (out: seq<PageId>)
      requires Recorded(trace, Now()) && StubOk(Now(), e)
      ensures out == if e.overflow then chains[FirstOf(e)] else []
    {
      if !e.overflow {
        return [];
      }
      var stub := DecodeStub(e.stored).value;
      RecordedNow(trace, Now());
      assert ChainOk(Now(), stub.first);
      out := ChainPages(stub.first, stub.total, chains[stub.first]);
    }

    /** Reassemble a chained value from its stub. */
    method Materialize(e: Entry) returns (value: seq<byte>)
      requires Recorded(trace, Now()) && StubOk(Now(), e)
      ensures value == ValueOf(Now(), e)
    {
      if !e.overflow {
        return e.stored;
      }
      var stub := DecodeStub(e.stored).value;
      RecordedNow(trace, Now());
      ghost var s := Now();
      ghost var ids := chains[stub.first];
      assert ChainOk(s, stub.first);
      value := stub.prefix;
      var at := Some(stub.first);
      var count := 0;
      while at.Some?
        invariant count <= |ids|
        invariant at == if count < |ids| then Some(ids[count]) else None
        invariant value + Payload(pages, ids[count..]) == stub.prefix + Payload(pages, ids)
        decreases |ids| - count
      {
        assert ChainPage(s, ids, count);
        assert count < ChainLen(stub.total);
        assert ids[count..][1..] == ids[count + 1..];
        value := value + pages[at.value].payload;
        count := count + 1;
        at := pages[at.value].next;
      }
    }

    /** The value under `key`, if any. */
    method Get(key: Key) returns (value: Option<seq<byte>>)
      requires Recorded(trace, Now())
      ensures value == if key in Table(Now()) then Some(Table(Now())[key]) else None
    {
      RecordedNow(trace, Now());
      var found := GetStored(key);
      if found.None? {
        return None;
      }
      assert StubOk(Now(), Rows(Now())[key]);
      var bytes := Materialize(found.value);
      return Some(bytes);
    }

    // --- reading whole ranges ------------------------------------------------------------------

    /** The leftmost leaf, taking the first child at every level. */
    method LeftmostLeaf() returns (at: PageId)
      requires Inv(Now())
      ensures at in nodes && nodes[at] == Place(0, 0)
    {
      at := root;
      while !pages[at].Leaf?
        invariant at in nodes && nodes[at].low == 0
        decreases nodes[at].level
      {
        assert NodeOk(Now(), at) && ChildOk(Now(), pages[at], nodes[at], 0);
        at := if |pages[at].slots| > 0 then pages[at].slots[0].child else pages[at].rightmost;
      }
    }

    /** The leaf entries along the right links after leaf `start`, appended to `es`. */
    method FollowLeaves(start: PageId, first: seq<Entry>, ghost from: Key) returns (es: seq<Entry>)
      requires Inv(Now()) && start in nodes && nodes[start].level == 0 && from <= nodes[start].low
      requires Scanned(Now(), first, from, Some(nodes[start].low))
      ensures Scanned(Now(), es, from, None)
    {
      hide NodesOk, Scanned;
      var at := start;
      es := first;
      while true
        invariant at in nodes && nodes[at].level == 0 && from <= nodes[at].low
        invariant Scanned(Now(), es, from, Some(nodes[at].low))
        decreases NodesAbove(Now(), nodes[at].low)
      {
        LeafShape(Now(), at);
        ScanLeaf(Now(), es, from, at);
        es := es + pages[at].entries;
        if pages[at].link.None? {
          return;
        }
        LinkAscends(Now(), at);
        LinkLow(Now(), at);
        at := pages[at].link.value;
      }
    }

    /** Every leaf entry with a row id of at least `start`, in ascending order. */
    method ScanFromStored(start: Key) returns (es: seq<Entry>)
      requires Recorded(trace, Now())
      ensures Scanned(Now(), es, start, None)
    {
      RecordedNow(trace, Now());
      var path, leaf := Descend(start);
      assert NodeOk(Now(), leaf);
      var at := BinarySearch(pages[leaf].entries, start);
      ScanFirst(Now(), start, leaf, at);
      es := pages[leaf].entries[at..];
      if pages[leaf].link.Some? {
        LinkLow(Now(), leaf);
        es := FollowLeaves(pages[leaf].link.value, es, start);
      }
    }

    /** Every leaf entry in ascending order of row ids, from the leftmost leaf on. */
    method ScanStored() returns (es: seq<Entry>)
      requires Recorded(trace, Now())
      ensures Scanned(Now(), es, 0, None)
    {
      RecordedNow(trace, Now());
      var at := LeftmostLeaf();
      es := FollowLeaves(at, [], 0);
    }

    /** The values of scanned entries. */
    method MaterializeAll(es: seq<Entry>, ghost start: Key) returns (out: seq<(Key, seq<byte>)>)
      requires Recorded(trace, Now()) && Scanned(Now(), es, start, None)
      ensures Lists(out, Table(Now()), start)
    {
      hide Recorded, Scanned, Rows, StubOk, Table;
      out := [];
      while |out| < |es|
        invariant |out| <= |es|
        invariant forall i :: 0 <= i < |out| ==> out[i] == (es[i].key, ValueOf(Now(), es[i]))
      {
        var e := es[|out|];
        ScannedRow(Now(), es, start, |out|);
        RowStub(Now(), trace, e.key);
        var value := Materialize(e);
        out := out + [(e.key, value)];
      }
      RecordedNow(trace, Now());
      ScanLists(Now(), es, out, start);
    }

    /** Every row in ascending order of row ids. */
    method Scan() returns (out: seq<(Key, seq<byte>)>)
      requires Recorded(trace, Now())
      ensures Lists(out, Table(Now()), 0)
    {
      var es := ScanStored();
      out := MaterializeAll(es, 0);
    }

    /** Every row from row id `start` on, in ascending order: how a scan is resumed. */
    method ScanFrom(start: Key) returns (out: seq<(Key, seq<byte>)>)
      requires Recorded(trace, Now())
      ensures Lists(out, Table(Now()), start)
    {
      var es := ScanFromStored(start);
      out := MaterializeAll(es, start);
    }

    // --- every page ----------------------------------------------------------------------------

    /** The chain pages of the chained entries of leaf `at`, appended to `before`. */
    method LeafChains(at: PageId, before: seq<PageId>, ghost ps: set<PageId>) returns (out: seq<PageId>)
      requires Recorded(trace, Now()) && at in nodes && nodes[at].level == 0 && at in pages && pages[at].Leaf?
      requires ps <= nodes.Keys && at !in ps
      requires NamesOnce(before, Named(Now(), ps) + {at})
      ensures NamesOnce(out, Named(Now(), ps + {at}))
    {
      hide Recorded, Inv, Rows, StubsOk, ChainsOk, ChainsFrom, NamedTo, NamesOnce, StubOk;
      ghost var s := Now();
      RecordedNow(trace, s);
      var es := pages[at].entries;
      var i := 0;
      out := before;
      NamedFrom(s, ps, at, out);
      while i < |es|
        invariant 0 <= i <= |es|
        invariant NamedTo(s, ps, at, i, out)
      {
        if es[i].overflow {
          NewChainNamed(s, ps, at, i);
          var more := RetiredChain(es[i]);
          NameChain(s, ps, at, i, out, more);
          out := out + more;
        } else {
          NameNothing(s, ps, at, i, out);
        }
        i := i + 1;
      }
      NamedAll(s, ps, at, out);
    }

    /** Every page reachable from the root, level by level along the right links, each once. With
        the chains handed out as retired they are all the pages there are. */
    method Pages() returns (out: seq<PageId>)
      requires Recorded(trace, Now()) && Accounted(Now(), retired)
      ensures Distinct(out)
      ensures (set x | x in out) !! ChainPagesOf(chains, retired)
      ensures (set x | x in out) + ChainPagesOf(chains, retired) == pages.Keys
    {
      ghost var s := Now();
      RecordedNow(trace, s);
      var head := root;
      out := [];
      PassRoot(s);
      while true
        invariant head in nodes && nodes[head].low == 0
        invariant NamesOnce(out, Named(s, PassedNodes(s, head)))
        decreases nodes[head].level
      {
        ghost var at;
        out, at := LevelPages(head, out);
        if pages[head].Leaf? {
          PassAll(s, at);
          AllLive(s);
          AllPages(s, out, retired);
          return;
        }
        PassLevel(s, head, at);
        head := if |pages[head].slots| > 0 then pages[head].slots[0].child else pages[head].rightmost;
      }
    }

    /** One level of the page walk; `last` is its rightmost node. */
    method LevelPages(head: PageId, before: seq<PageId>) returns (out: seq<PageId>, ghost last: PageId)
      requires Recorded(trace, Now()) && head in nodes && nodes[head].low == 0
      requires NamesOnce(before, Named(Now(), PassedNodes(Now(), head)))
      ensures last in nodes && nodes[last].level == nodes[head].level && last in pages && IsNode(pages[last]) && pages[last].link.None?
      ensures NamesOnce(out, Named(Now(), PassedNodes(Now(), last) + {last}))
    {
      hide Recorded, Rows, StubsOk, ChainsOk, ChainsFrom, Named, PassedNodes, NamesOnce, NodesOk;
      ghost var s := Now();
      RecordedNow(trace, s);
      NodesHavePages(trace, s);
      var at := head;
      out := before;
      while true
        invariant at in nodes && nodes[at].level == nodes[head].level
        invariant NamesOnce(out, Named(s, PassedNodes(s, at)))
        decreases NodesAbove(s, nodes[at].low)
      {
        NodeShape(s, at);
        PassNode(s, at);
        NameNode(s, at, out);
        out := out + [at];
        if pages[at].Leaf? {
          out := LeafChains(at, out, PassedNodes(s, at));
        }
        if pages[at].link.None? {
          last := at;
          return;
        }
        LinkAscends(s, at);
        at := pages[at].link.value;
      }
    }

    // --- changing rows -------------------------------------------------------------------------

    /** Lookups and scans work: every moment so far was sound. */
    ghost predicate Readable()
      reads this
    {
      StoreOk() && Recorded(trace, Now()) && AllFit(Now())
    }

    /** Ready for a writer: every node is published, and every page accounted for. */
    ghost predicate Ready()
      reads this
    {
      Readable() && Complete(Now(), {}) && Accounted(Now(), retired)
    }

    /** Write the leaf that holds the new entry `e`; if that fails without a split, give back the
        chain `e` was to publish, which nothing can reference. */
    method WriteEntry(path: seq<PageId>, leaf: PageId, es: seq<Entry>, e: Entry, ghost pos: nat, ghost tuple: seq<byte>,
                      ghost before: map<PageId, Node>, ghost ids: seq<PageId>)
      returns (st: Status)
      requires Readable() && Complete(Now(), {})
      requires LeafChange(Now(), path, leaf, es, pos)
      requires RowChange(Now(), leaf, es, e.key, e, tuple, WithChain(chains, e, ids))
      requires NewPages(before, pages, ids) && (e.overflow <==> ids != [])
      modifies `pages, `free, `next, `trace, `nodes, `chains, `root, `faults
      ensures st.Failed? ==> st.error == Io
      ensures StoreOk()
      ensures !TripleRoot(path, es) ==>
                EntryWritten(old(Now()), Now(), old(trace), trace, es, e, tuple, before, ids, st)
      ensures TripleRoot(path, es) && st.Done? ==>
                Pack(es, [])[1] != [] && LostBelow(Now(), Pack(es, [])[1][0].key)
      ensures LeafFits(es) ==> nodes == old(nodes) && root == old(root)
      ensures faults == old(faults) + if st.Failed? then 1 else 0
    {
      hide Recorded, Rows, AllFit, Complete, LeafFits, Pack, RowChange, LeafOutcome, LeafChange, StubsOk, EntryWritten;
      ghost var s, tr := Now(), trace;
      ghost var cs := WithChain(chains, e, ids);
      RowChangeStubs(s, leaf, es, e.key, e, tuple, cs);
      RowChangeReady(s, leaf, es, e.key, e, tuple, cs);
      var fits := LeafFits(es);
      st := WriteLeafOrSplit(path, leaf, es, pos, cs);
      if TripleRoot(path, es) {
        return;
      }
      ghost var t, trt := Now(), trace;
      if st.Failed? && fits {
        LeafOutcomeSame(s, t, tr, trt, leaf, es, cs, st);
        DiscardUnpublished(e, tuple, ids);
        assert pages == before;
        DiscardedOutcome(s, tr, trt, trace, leaf, es, e, tuple, before, ids, cs, st);
      } else {
        WrittenOutcome(s, t, tr, trt, leaf, es, e, tuple, before, ids, cs, st);
      }
    }

    /** Give back the chain of an entry that was never published. */
    method DiscardUnpublished(e: Entry, ghost tuple: seq<byte>, ghost ids: seq<PageId>)
      requires StoreOk() && Recorded(trace, Now())
      requires EntryReady(Now(), e, e.key, tuple, WithChain(chains, e, ids)) && (e.overflow <==> ids != [])
      modifies `pages, `free, `trace
      ensures StoreOk() && Recorded(trace, Now()) && Steady(old(trace), trace, old(Rows(Now())))
      ensures pages == old(pages) - (set x | x in ids) && Rows(Now()) == old(Rows(Now()))
    {
      hide Recorded, Rows;
      if e.overflow {
        UnpublishedChain(Now(), e, tuple, ids);
        var stub := DecodeStub(e.stored).value;
        var out := ChainPages(stub.first, stub.total, ids);
        DeallocateAll(out);
      } else {
        assert pages == pages - (set x | x in ids);
      }
    }

    /** Publish a prepared entry, and sum up what becomes of the table: the row is set, in one
        write, exactly when the leaf does not have to split into three under the root. */
    method SetEntry(path: seq<PageId>, leaf: PageId, es: seq<Entry>, e: Entry, ghost at: nat, ghost tuple: seq<byte>,
                    ghost ids: seq<PageId>, ghost s0: Snap, ghost tr0: seq<Snap>)
      returns (st: Status)
      requires Readable() && Complete(Now(), {}) && Prepared(s0, Now(), tr0, trace, e, tuple, ids)
      requires LeafChange(Now(), path, leaf, es, at)
      requires RowChange(Now(), leaf, es, e.key, e, tuple, WithChain(chains, e, ids))
      requires NewPages(s0.pages, pages, ids) && (e.overflow <==> ids != [])
      requires Inv(s0) && AllFit(s0) && Complete(s0, {}) && Accounted(s0, retired)
      requires Owns(s0, leaf, e.key) && IsPosition(s0.pages[leaf].entries, e.key, at) && |path| == Top(s0)
      requires |e.stored| == |Sketch(e.key, tuple).stored|
      requires var was := s0.pages[leaf].entries;
               es == if FoundAt(was, e.key, at) then was[at := e] else Inserted(was, at, e)
      modifies `pages, `free, `next, `trace, `nodes, `chains, `root, `faults
      ensures StoreOk() && (st.Failed? ==> st.error == Io)
      ensures !Triples(s0, e.key, tuple) ==>
                RowSet(s0, Now(), tr0, trace, e.key, tuple, LeafFits(LeafWith(s0, e.key, tuple)), retired,
                       if st.Done? then retired + Dropped(Rows(s0), e.key) else retired, st)
      ensures st.Done? ==> (AnswersAs(Now(), Table(s0)[e.key := tuple]) <==> !Triples(s0, e.key, tuple))
      ensures LeafFits(LeafWith(s0, e.key, tuple)) ==> nodes == old(nodes) && root == old(root)
      ensures st.Done? && Triples(s0, e.key, tuple) ==> LosesFirst(s0, Now(), e.key, tuple)
      ensures faults == old(faults) + if st.Failed? then 1 else 0
    {
      hide Recorded, Rows, AllFit, Complete, LeafFits, Pack, RowChange, LeafChange, EntryWritten, RowSet, Accounted, Table, StubsOk, Inv;
      ghost var s, tr := Now(), trace;
      TripleForetold(s0, path, leaf, e.key, tuple, at, e, es);
      st := WriteEntry(path, leaf, es, e, at, tuple, s0.pages, ids);
      if TripleRoot(path, es) {
        if st.Done? {
          LeafChangeSorted(s, path, leaf, es, at);
          TripleDoesNotAnswer(s0, Now(), leaf, e.key, tuple, at, e, es);
          TripleLoses(s0, Now(), leaf, e.key, tuple, at, e, es);
        }
      } else {
        ghost var left := if st.Done? then retired + Dropped(Rows(s0), e.key) else retired;
        RowSetOutcome(s0, s, Now(), tr0, tr, trace, es, e, tuple, ids, retired, left, st);
        if st.Done? { RowSetAnswers(s0, Now(), tr0, trace, e.key, tuple, LeafFits(es), retired, left); }
      }
    }

    /** Make the entry for `tuple` and put it in the leaf that owns `key`, at its place. */
    method StoreRow(path: seq<PageId>, leaf: PageId, at: nat, key: Key, tuple: seq<byte>) returns (st: Status)
      requires Ready() && Inv(Now()) && leaf in pages && pages[leaf].Leaf? && Owns(Now(), leaf, key)
      requires PathOk(Now(), path, leaf) && |path| == Top(Now())
      requires Sorted(pages[leaf].entries) && IsPosition(pages[leaf].entries, key, at)
      modifies `pages, `free, `next, `trace, `nodes, `chains, `root, `faults
      ensures StoreOk() && st in {Done, Failed(Io), Failed(TooLarge)}
      ensures st == Failed(TooLarge) <==> |tuple| > MAX_CHAINED
      ensures st == Failed(TooLarge) ==> Ready() && Now() == old(Now()) && trace == old(trace)
      ensures st in {Done, Failed(Io)} && !old(Triples(Now(), key, tuple)) ==>
                RowSet(old(Now()), Now(), old(trace), trace, key, tuple, old(LeafFits(LeafWith(Now(), key, tuple))),
                       retired, if st.Done? then retired + Dropped(old(Rows(Now())), key) else retired, st)
      ensures st.Done? ==>
                (AnswersAs(Now(), old(Table(Now()))[key := tuple]) <==> !old(Triples(Now(), key, tuple)))
      ensures old(LeafFits(LeafWith(Now(), key, tuple))) ==> nodes == old(nodes) && root == old(root)
      ensures st.Done? && old(Triples(Now(), key, tuple)) ==> LosesFirst(old(Now()), Now(), key, tuple)
      ensures faults == old(faults) + if st == Failed(Io) then 1 else 0
    {
      hide Recorded, Rows, AllFit, Complete, LeafFits, Pack, RowChange, LeafChange, EntryWritten, RowSet, Accounted, Table, StubsOk,
           Inv, Triples, AnswersAs, LeafWith, LosesFirst;
      ghost var s0, tr0 := Now(), trace;
      var r, ids := MakeEntry(key, tuple);
      if r.Err? {
        FailedMake(s0, tr0, trace, key, tuple, LeafFits(LeafWith(s0, key, tuple)), retired);
        return Failed(r.error);
      }
      var e := r.value;
      ghost var s, tr := Now(), trace;
      PreparedTree(s0, s, tr0, tr, e, tuple, ids);
      PathKept(s0, s, path, leaf);
      PreparedPut(s, path, leaf, at, e, tuple, WithChain(chains, e, ids));
      var es := PutEntry(pages[leaf].entries, at, e);
      st := SetEntry(path, leaf, es, e, at, tuple, ids, s0, tr0);
    }

    /** Store `tuple` under a row id the tree does not have yet. */
    method Insert(key: Key, tuple: seq<byte>) returns (st: Status)
      requires Ready()
      modifies this
      ensures StoreOk() && retired == old(retired)
      ensures st == Failed(DuplicateKey) <==> old(key in Table(Now()))
      ensures st == Failed(TooLarge) <==> old(key !in Table(Now())) && |tuple| > MAX_CHAINED
      ensures st in {Failed(DuplicateKey), Failed(TooLarge)} ==> Ready() && Now() == old(Now()) && trace == old(trace)
      ensures st in {Done, Failed(Io), Failed(DuplicateKey), Failed(TooLarge)}
      ensures st in {Done, Failed(Io)} && !old(Triples(Now(), key, tuple)) ==>
                RowSet(old(Now()), Now(), old(trace), trace, key, tuple, old(LeafFits(LeafWith(Now(), key, tuple))),
                       old(retired), retired, st)
      ensures st.Done? ==>
                (AnswersAs(Now(), old(Table(Now()))[key := tuple]) <==> !old(Triples(Now(), key, tuple)))
      ensures old(LeafFits(LeafWith(Now(), key, tuple))) ==> nodes == old(nodes) && root == old(root)
      ensures st.Done? && old(Triples(Now(), key, tuple)) ==> LosesFirst(old(Now()), Now(), key, tuple)
      ensures faults == old(faults) + if st == Failed(Io) then 1 else 0
    {
      hide Recorded, Rows, AllFit, Complete, LeafFits, Pack, RowChange, LeafChange, EntryWritten, RowSet, Accounted, Table, StubsOk,
           Inv, Triples, AnswersAs, LeafWith, LosesFirst;
      var path, leaf, at, found := FindLeaf(key);
      if found {
        return Failed(DuplicateKey);
      }
      assert retired + Dropped(Rows(Now()), key) == retired;
      st := StoreRow(path, leaf, at, key, tuple);
    }

    /** Replace the value under a row id the tree has. The pages of the chain the old value used,
        if it had one, are handed to the caller. */
    method Update(key: Key, tuple: seq<byte>) returns (st: Status, oldPages: seq<PageId>)
      requires Ready()
      modifies this
      ensures StoreOk()
      ensures st == Failed(MissingKey) <==> old(key !in Table(Now()))
      ensures st == Failed(TooLarge) <==> old(key in Table(Now())) && |tuple| > MAX_CHAINED
      ensures st in {Failed(MissingKey), Failed(TooLarge)} ==> Ready() && Now() == old(Now()) && trace == old(trace)
      ensures st in {Done, Failed(Io), Failed(MissingKey), Failed(TooLarge)}
      ensures st.Failed? ==> retired == old(retired) && oldPages == []
      ensures st.Done? ==> retired == old(retired) + Dropped(old(Rows(Now())), key)
      ensures st.Done? ==> (set x | x in oldPages) == ChainPagesOf(old(chains), Dropped(old(Rows(Now())), key))
      ensures st in {Done, Failed(Io)} && !old(Triples(Now(), key, tuple)) ==>
                RowSet(old(Now()), Now(), old(trace), trace, key, tuple, old(LeafFits(LeafWith(Now(), key, tuple))),
                       old(retired), retired, st)
      ensures st.Done? ==>
                (AnswersAs(Now(), old(Table(Now()))[key := tuple]) <==> !old(Triples(Now(), key, tuple)))
      ensures old(LeafFits(LeafWith(Now(), key, tuple))) ==> nodes == old(nodes) && root == old(root)
      ensures st.Done? && old(Triples(Now(), key, tuple)) ==> LosesFirst(old(Now()), Now(), key, tuple)
      ensures faults == old(faults) + if st == Failed(Io) then 1 else 0
    {
      hide Recorded, Rows, AllFit, Complete, LeafFits, Pack, RowChange, LeafChange, EntryWritten, RowSet, Accounted, Table, StubsOk,
           Inv, Triples, AnswersAs, LeafWith, LosesFirst;
      ghost var s0, tr0 := Now(), trace;
      oldPages := [];
      var path, leaf, at, found := FindLeaf(key);
      if !found {
        return Failed(MissingKey), [];
      }
      RowStub(s0, tr0, key);
      var dropped := RetiredChain(pages[leaf].entries[at]);
      st := StoreRow(path, leaf, at, key, tuple);
      if st.Done? {
        retired := retired + Dropped(Rows(s0), key);
        oldPages := dropped;
        DroppedPages(s0, key, dropped);
      }
    }

    /** Remove a row. The pages of the chain its value used, if it had one, are handed to the
        caller; leaves are not merged. */
    method Delete(key: Key) returns (found: bool, oldPages: seq<PageId>, st: Status)
      requires Ready()
      modifies this
      ensures Ready() && root == old(root) && nodes == old(nodes)
      ensures st in {Done, Failed(Io)} && (found <==> st.Done? && old(key in Table(Now())))
      ensures TableSwitches(old(trace), trace, old(Table(Now())), Table(Now()))
      ensures st.Done? ==> Table(Now()) == old(Table(Now())) - {key} && retired == old(retired) + Dropped(old(Rows(Now())), key)
      ensures st.Done? ==> (set x | x in oldPages) == ChainPagesOf(old(chains), Dropped(old(Rows(Now())), key))
      ensures st.Failed? ==> Now() == old(Now()) && retired == old(retired)
      ensures faults == old(faults) + if st == Failed(Io) then 1 else 0
    {
      hide Recorded, Rows, AllFit, Complete, Accounted, Table, StubsOk, Inv;
      ghost var s0, tr0, retired0 := Now(), trace, retired;
      oldPages := [];
      NothingSwitches(s0, tr0);
      var path, leaf, at, there := FindLeaf(key);
      if !there {
        AbsentRow(s0, tr0, key);
        return false, [], Done;
      }
      RowStub(s0, tr0, key);
      var dropped := RetiredChain(pages[leaf].entries[at]);
      var es := Removed(pages[leaf].entries, at);
      ghost var t := Rewrite(s0, leaf, es);
      RowRemoved(s0, tr0, leaf, at, key, retired);
      var ok := WritePage(leaf, pages[leaf].(entries := es), t);
      if !ok {
        return false, [], Failed(Io);
      }
      DroppedPages(s0, key, dropped);
      retired := retired + Dropped(Rows(s0), key);
      return true, dropped, Done;
    }

    /** Overwrite the first bytes of the value under `key` in place. A chained value keeps that
        many bytes inline, so its chain is untouched. */
    method UpdatePrefix(key: Key, prefix: seq<byte>) returns (st: Status)
      requires Ready()
      modifies `pages, `trace, `nodes, `chains, `faults
      ensures Ready() && nodes == old(nodes)
      ensures st in {Done, Failed(Io), Failed(MissingKey), Failed(PrefixTooLong)}
      ensures TableSwitches(old(trace), trace, old(Table(Now())), Table(Now()))
      ensures st == Failed(MissingKey) <==> old(key !in Table(Now()))
      ensures st == Failed(PrefixTooLong) <==>
                && old(key in Table(Now()))
                && |prefix| > (if |old(Table(Now()))[key]| > 8163 then 24 else |old(Table(Now()))[key]|)
      ensures st.Failed? ==> Now() == old(Now())
      ensures st.Done? ==>
                && key in old(Table(Now())) && |prefix| <= |old(Table(Now()))[key]|
                && Table(Now()) == old(Table(Now()))[key := prefix + old(Table(Now()))[key][|prefix|..]]
      ensures faults == old(faults) + if st == Failed(Io) then 1 else 0
    {
      hide Recorded, Rows, AllFit, Complete, Accounted, Table, StubsOk, Inv;
      ghost var s0, tr0 := Now(), trace;
      NothingSwitches(s0, tr0);
      var path, leaf, at, there := FindLeaf(key);
      if !there {
        return Failed(MissingKey);
      }
      RowStub(s0, tr0, key);
      var e := pages[leaf].entries[at];
      PrefixLengths(s0, key, e);
      if (e.overflow && |prefix| > OVERFLOW_INLINE_PREFIX) || |prefix| > |e.stored| {
        return Failed(PrefixTooLong);
      }
      var f := e.(stored := prefix + e.stored[|prefix|..]);
      var es := pages[leaf].entries[at := f];
      ghost var t := Rewrite(s0, leaf, es);
      RowPrefixed(s0, tr0, leaf, at, key, prefix, retired);
      var ok := WritePage(leaf, pages[leaf].(entries := es), t);
      return if ok then Done else Failed(Io);
    }

    /** The leaf that owns `key`, and where in it `key` is or would go. */
    method FindLeaf(key: Key) returns (path: seq<PageId>, leaf: PageId, at: nat, found: bool)
      requires Recorded(trace, Now())
      ensures Inv(Now()) && leaf in pages && pages[leaf].Leaf? && Owns(Now(), leaf, key)
      ensures PathOk(Now(), path, leaf) && |path| == Top(Now())
      ensures Sorted(pages[leaf].entries) && IsPosition(pages[leaf].entries, key, at)
      ensures found <==> FoundAt(pages[leaf].entries, key, at)
      ensures found <==> key in Table(Now())
      ensures found <==> key in Rows(Now())
      ensures found ==> Rows(Now())[key] == pages[leaf].entries[at]
    {
      RecordedNow(trace, Now());
      path, leaf := Descend(key);
      assert NodeOk(Now(), leaf);
      at := BinarySearch(pages[leaf].entries, key);
      found := FoundAt(pages[leaf].entries, key, at);
      FindInLeaf(Now(), leaf, key);
      FindSound(pages[leaf].entries, key);
    }

    // --- giving retired pages back -------------------------------------------------------------

    /** Free the pages of a retired chain, once no reader can hold its stub any more: readers from
        before this point are gone, so the record of moments starts afresh. */
    method Reclaim(ids: seq<PageId>, ghost first: PageId)
      requires Ready() && first in retired && first in chains && ids == chains[first]
      modifies this
      ensures Ready() && Table(Now()) == old(Table(Now())) && retired == old(retired) - {first}
      ensures pages == old(pages) - (set x | x in ids) && nodes == old(nodes) && root == old(root)
    {
      hide Recorded, Rows, AllFit, Complete, Accounted, Table;
      ghost var s0 := Now();
      RecordedNow(trace, s0);
      ForgetChain(trace, s0, first, retired);
      chains := chains - {first};
      trace := [Now()];
      ghost var s, tr := Now(), trace;
      DeallocateAll(ids);
      Reclaimed(s0, s, Now(), tr, trace, first, retired);
      retired := retired - {first};
    }

    // --- whole runs ----------------------------------------------------------------------------

    /** Whether putting `tuple` under `key` would make a root leaf overflow into three. */
    method RootWouldTriple(key: Key, tuple: seq<byte>) returns (triple: bool)
      requires Ready()
      ensures Inv(Now()) && (triple <==> Triples(Now(), key, tuple))
    {
      RecordedNow(trace, Now());
      if !pages[root].Leaf? {
        return false;
      }
      RootLeafOwns(Now(), key, tuple);
      var es := Put(pages[root].entries, Sketch(key, tuple));
      var chunks := PackLeaf(es);
      return !LeafFits(es) && |chunks| == 3;
    }

    /** Run `ops` in order, up to the first failed page write or the first operation that would
        make a root leaf overflow into three. Every answer up to there is the one an ordered map
        from row ids to values gives. */
    method Run(ops: seq<Op>) returns (answers: seq<Answer>, stop: Stop)
      requires Ready()
      modifies this
      ensures Readable() && |answers| <= |ops|
      ensures stop == Finished <==> |answers| == |ops|
      ensures stop != IoFailed ==> Ready() && RunsTo(old(Table(Now())), ops[..|answers|], answers, Table(Now()))
      ensures stop == IoFailed ==>
                exists table :: RunsTo(old(Table(Now())), ops[..|answers|], answers, table) && HalfDone(table, ops[|answers|], Table(Now()))
      ensures stop == RootTriples ==> Inv(Now()) && OpTriples(Now(), ops[|answers|])
      ensures faults == old(faults) + if stop == IoFailed then 1 else 0
    {
      hide Recorded, Rows, AllFit, Complete, Accounted, Table, RunsTo, RowSet, Triples;
      answers := [];
      ghost var table0 := Table(Now());
      RunsToNothing(table0);
      assert ops[..0] == [];
      while |answers| < |ops|
        invariant faults == old(faults)
        invariant Ready() && |answers| <= |ops|
        invariant RunsTo(table0, ops[..|answers|], answers, Table(Now()))
      {
        var op := ops[|answers|];
        ghost var before := Table(Now());
        var answer, halted := RunOne(op);
        if halted.Some? {
          return answers, halted.value;
        }
        RunsToNext(table0, ops[..|answers|], answers, before, op, answer, Table(Now()));
        assert ops[..|answers|] + [op] == ops[..|answers| + 1];
        answers := answers + [answer];
      }
      stop := Finished;
    }

    /** One operation of a run. */
    method RunOne(op: Op) returns (answer: Answer, halted: Option<Stop>)
      requires Ready()
      modifies this
      ensures Readable() && halted != Some(Finished)
      ensures halted.None? ==> Ready() && Meets(old(Table(Now())), op, answer, Table(Now()))
      ensures halted == Some(IoFailed) ==> HalfDone(old(Table(Now())), op, Table(Now()))
      ensures halted == Some(RootTriples) ==> Ready() && Now() == old(Now()) && Inv(Now()) && OpTriples(Now(), op)
      ensures faults == old(faults) + if halted == Some(IoFailed) then 1 else 0
    {
      hide Recorded, Rows, AllFit, Complete, Accounted, Table, Triples;
      ghost var s0 := Now();
      answer := Accepted;
      halted := None;
      match op
      case InsertRow(key, tuple) =>
        var triple := RootWouldTriple(key, tuple);
        if triple { return Accepted, Some(RootTriples); }
        var st := Insert(key, tuple);
        answer := if st.Done? then Accepted else Refused(st.error);
        halted := if st == Failed(Io) then Some(IoFailed) else None;
        assert Table(Now()) != Table(s0) && st.Failed? ==> Meets(Table(s0), op, Accepted, Table(Now()));
      case UpdateRow(key, tuple) =>
        var triple := RootWouldTriple(key, tuple);
        if triple { return Accepted, Some(RootTriples); }
        var st, _ := Update(key, tuple);
        answer := if st.Done? then Accepted else Refused(st.error);
        halted := if st == Failed(Io) then Some(IoFailed) else None;
        assert Table(Now()) != Table(s0) && st.Failed? ==> Meets(Table(s0), op, Accepted, Table(Now()));
      case PrefixRow(key, prefix) =>
        var st := UpdatePrefix(key, prefix);
        answer := if st.Done? then Accepted else Refused(st.error);
        halted := if st == Failed(Io) then Some(IoFailed) else None;
        assert Table(Now()) != Table(s0) && st.Failed? ==> Meets(Table(s0), op, Accepted, Table(Now()));
      case DeleteRow(key) =>
        var found, _, st := Delete(key);
        answer := Deleted(found);
        halted := if st == Failed(Io) then Some(IoFailed) else None;
      case GetRow(key) =>
        var value := Get(key);
        answer := Value(value);
      case ScanRows(start) =>
        var rows := ScanFrom(start);
        answer := Listed(rows);
    }
  }
}
