/** Splitting a leaf: the new leaf goes between its neighbours, on the page and in the links. */
module KeyLeaf {
  import opened Bytes
  import opened Distinctness
  import opened Sequences
  import opened KeyOrder
  import opened KeyNode
  import opened KeySplit
  import opened KeyShape
  import opened KeyPath
  import opened KeyEntries
  import opened KeyStored
  import opened KeyGrow

  /** The pages once leaf `x` is split: `id` follows it, and its old follower follows `id`. */
  function SplitPages(pages: Pages, x: PageId, id: PageId, low: seq<Entry>, high: seq<Entry>): Pages
    requires x in pages && pages[x].Leaf? && (pages[x].next.Some? ==> pages[x].next.value in pages && pages[pages[x].next.value].Leaf?)
  {
    var next := pages[x].next;
    var linked := if next.Some? then pages[next.value := pages[next.value].(prev := Some(id))] else pages;
    linked[id := Leaf(Some(x), next, high)][x := Leaf(pages[x].prev, Some(id), low)]
  }

  lemma NextPage(pages: Pages, a: seq<PageId>, x: PageId, b: seq<PageId>)
    requires LinksOk(pages, a + [x] + b)
    ensures x in pages && pages[x].Leaf? && pages[x].next == (if b == [] then None else Some(b[0]))
    ensures pages[x].prev == (if a == [] then None else Some(a[|a| - 1]))
    ensures b != [] ==> b[0] in pages && pages[b[0]].Leaf?
    ensures a != [] ==> a[|a| - 1] in pages && pages[a[|a| - 1]].Leaf?
  {
    var ids := a + [x] + b;
    assert LinkOk(pages, ids, |a|) && ids[|a|] == x;
    if b != [] { assert LinkOk(pages, ids, |a| + 1) && ids[|a| + 1] == b[0]; }
    if a != [] { assert LinkOk(pages, ids, |a| - 1) && ids[|a| - 1] == a[|a| - 1]; }
  }

  lemma SplitLinks(pages: Pages, a: seq<PageId>, x: PageId, b: seq<PageId>, id: PageId, low: seq<Entry>, high: seq<Entry>)
    requires LinksOk(pages, a + [x] + b) && Distinct(a + [x] + b) && id !in a + [x] + b
    requires x in pages && pages[x].Leaf? && pages[x].next == (if b == [] then None else Some(b[0]))
    requires b != [] ==> b[0] in pages && pages[b[0]].Leaf?
    ensures LinksOk(SplitPages(pages, x, id, low, high), a + [x, id] + b)
  {
    var ids, ids', pages' := a + [x] + b, a + [x, id] + b, SplitPages(pages, x, id, low, high);
    forall k: nat | k < |ids'| ensures LinkOk(pages', ids', k) {
      if k <= |a| {
        assert LinkOk(pages, ids, k) && ids'[k] == ids[k];
        assert k < |a| ==> ids[k] != ids[|a|];
        if b != [] { assert ids[|a| + 1] == b[0] && ids[k] != ids[|a| + 1]; }
      } else if k > |a| + 1 {
        assert LinkOk(pages, ids, k - 1) && ids'[k] == ids[k - 1];
        assert ids[|a|] != ids[k - 1];
        assert k > |a| + 2 ==> ids[|a| + 1] == b[0] && ids[|a| + 1] != ids[k - 1];
      }
    }
  }

  /** Both halves of an overfull leaf fit and are not empty. */
  lemma LeafHalvesFit(es: seq<Entry>, i: nat, e: Entry, mid: nat)
    requires LeafFits(es) && i <= |es| && !LeafFits(PutAt(es, i, e))
    requires Fits(e) && (forall k {:trigger es[k]} :: 0 <= k < |es| ==> Fits(es[k]))
    requires var sizes := EntrySizes(PutAt(es, i, e));
             1 <= mid < |sizes| && (mid > 1 ==> Sum(sizes[..mid]) <= Sum(sizes) / 2) && Sum(sizes[..mid]) + sizes[mid] > Sum(sizes) / 2
    ensures var out := PutAt(es, i, e); 1 <= mid < |out| && LeafFits(out[..mid]) && LeafFits(out[mid..])
  {
    hide Sum;
    var out := PutAt(es, i, e);
    var sizes := EntrySizes(out);
    PutSum(es, i, e);
    PutFits(es, i, e);
    HalvesFit(sizes, mid, PAGE_SIZE - LEAF_HEADER);
    assert EntrySizes(out[..mid]) == sizes[..mid] && EntrySizes(out[mid..]) == sizes[mid..];
  }

  lemma PutFits(es: seq<Entry>, i: nat, e: Entry)
    requires i <= |es| && Fits(e) && (forall k {:trigger es[k]} :: 0 <= k < |es| ==> Fits(es[k]))
    ensures var out := PutAt(es, i, e);
            && (forall k {:trigger out[k]} :: 0 <= k < |out| ==> Fits(out[k]))
            && Sizes(EntrySizes(out))
  {
    var out := PutAt(es, i, e);
    forall k | 0 <= k < |out| ensures Fits(out[k]) {
      assert out[k] == e || out[k] in es;
    }
  }

  lemma PutSum(es: seq<Entry>, i: nat, e: Entry)
    requires i <= |es| && Fits(e)
    ensures var out := PutAt(es, i, e);
            |es| <= |out| <= |es| + 1 && Sum(EntrySizes(out)) + 2 * (|out| - 1) <= Sum(EntrySizes(es)) + 2 * |es| + MAX_ENTRY_BYTES
  {
    hide Sum;
    var out := PutAt(es, i, e);
    var a, b := EntrySizes(es[..i]), EntrySizes(es[i..]);
    assert EntrySizes(es) == a + b;
    SumJoin(a, b);
    SumOne(EntrySize(e));
    if |out| == |es| {
      var c := EntrySizes(es[i + 1..]);
      assert b == [EntrySize(es[i])] + c;
      SumJoin([EntrySize(es[i])], c);
      SumOne(EntrySize(es[i]));
      assert EntrySizes(out) == a + [EntrySize(e)] + c;
      SumJoin(a + [EntrySize(e)], c);
      SumJoin(a, [EntrySize(e)]);
    } else {
      assert EntrySizes(out) == a + [EntrySize(e)] + b;
      SumJoin(a + [EntrySize(e)], b);
      SumJoin(a, [EntrySize(e)]);
    }
  }

  /** The two halves of a leaf's entries. */
  lemma {:induction false} SplitLeafShape(steps: seq<Step>, x: Tree, top: nat, es: seq<Entry>, mid: nat, id: PageId)
    requires StepsOk(steps) && |steps| == top && x.Tip? && ShapeOk(Plug(steps, x), top)
    requires Sorted(es) && 1 <= mid < |es| && LeafFits(es[..mid]) && LeafFits(es[mid..])
    requires forall i {:trigger es[i]} :: 0 <= i < |es| ==> Fits(es[i]) && Within(HoleLo(steps), HoleHi(steps), es[i].pos)
    ensures HalvesGood(steps, Tip(x.id, es[..mid]), es[mid].pos, Tip(id, es[mid..]), top)
  {
    hide LeafFits, PathFull, PathGood, Sorted, Plug;
    var sep := es[mid].pos;
    PlugGood(steps, x, top);
    PlugRoot(steps, x);
    if steps != [] { PlugFull(steps, x); } else { NoPath(); }
    SplitSorted(es, mid);
    SplitAfter(es, mid, HoleLo(steps));
  }

  lemma NoPath()
    ensures PathFull([])
  {
  }

  lemma SplitSorted(es: seq<Entry>, mid: nat)
    requires Sorted(es) && mid < |es|
    ensures Sorted(es[..mid]) && Sorted(es[mid..])
    ensures forall i {:trigger es[..mid][i]} :: 0 <= i < mid ==> Less(es[..mid][i].pos, es[mid].pos)
    ensures forall i {:trigger es[mid..][i]} :: 0 <= i < |es| - mid ==> !Less(es[mid..][i].pos, es[mid].pos)
  {
    forall i | mid <= i < |es| ensures !Less(es[i].pos, es[mid].pos) { Total(es[i].pos, es[mid].pos); }
  }

  lemma SplitAfter(es: seq<Entry>, mid: nat, lo: Edge)
    requires Sorted(es) && 1 <= mid < |es| && From(lo, es[0].pos)
    ensures lo.Mark? ==> Less(lo.pos, es[mid].pos)
  {
    if lo.Mark? {
      Total(lo.pos, es[0].pos);
      if lo.pos != es[0].pos { Trans(lo.pos, es[0].pos, es[mid].pos); }
    }
  }

  /** A path from the root cuts the leaves into those before, the one it leads to, and those after. */
  lemma {:induction false} PathLeaves(pages: Pages, root: PageId, steps: seq<Step>, x: Tree, top: nat)
    requires StepsOk(steps) && x.Tip? && TreeOk(pages, root, Plug(steps, x), top)
    ensures var a, b := LeafIds(LeftLeaves(steps)), LeafIds(RightLeaves(steps));
            && LeafIds(Leaves(Plug(steps, x))) == a + [x.id] + b
            && LinksOk(pages, a + [x.id] + b) && Distinct(a + [x.id] + b)
            && (forall k {:trigger (a + [x.id] + b)[k]} :: 0 <= k < |a + [x.id] + b| ==> (a + [x.id] + b)[k] in pages)
  {
    hide LeavesOf, Plug, Stored, LinkOk, Once, Ids;
    var t := Plug(steps, x);
    PlugLeaves(steps, x);
    LeafIdsOnce(t);
    LeafIdsIn(t);
    var ids := LeafIds(Leaves(t));
    assert forall k {:trigger ids[k]} :: 0 <= k < |ids| ==> ids[k] == Leaves(t)[k].id;
  }

  lemma {:induction false} SplitLeafIds(pages: Pages, root: PageId, steps: seq<Step>, x: Tree, top: nat, low: seq<Entry>, high: seq<Entry>, id: PageId, pages': Pages)
    requires StepsOk(steps) && x.Tip? && TreeOk(pages, root, Plug(steps, x), top) && id !in pages
    requires pages'.Keys == pages.Keys + {id}
    ensures HalvesOnce(pages', steps, Tip(x.id, low), Tip(id, high))
  {
    hide Stored, LinksOk, Good, Full, Leaves, Plug;
    PlugIds(steps, x);
  }

  lemma {:induction false} SplitLeafHeld(pages: Pages, root: PageId, steps: seq<Step>, x: Tree, top: nat, low: seq<Entry>, high: seq<Entry>, id: PageId)
    requires StepsOk(steps) && x.Tip? && TreeOk(pages, root, Plug(steps, x), top) && id !in pages
    requires x.id in pages && pages[x.id].Leaf?
    requires pages[x.id].next.Some? ==> pages[x.id].next.value in pages && pages[pages[x.id].next.value].Leaf?
    ensures HalvesStored(SplitPages(pages, x.id, id, low, high), root, steps, Tip(x.id, low), Tip(id, high))
  {
    hide Plug, LinksOk, Good, Full, SplitPages, PathStored, Once, Leaves, LeavesOf;
    SplitLeafLinks(pages, root, steps, x, top, low, high, id);
    SplitLeafStored(pages, steps, x, low, high, id);
    PlugRoot(steps, x);
  }

  lemma {:induction false} SplitLeafLinks(pages: Pages, root: PageId, steps: seq<Step>, x: Tree, top: nat, low: seq<Entry>, high: seq<Entry>, id: PageId)
    requires StepsOk(steps) && x.Tip? && TreeOk(pages, root, Plug(steps, x), top) && id !in pages
    requires x.id in pages && pages[x.id].Leaf?
    requires pages[x.id].next.Some? ==> pages[x.id].next.value in pages && pages[pages[x.id].next.value].Leaf?
    ensures LinksOk(SplitPages(pages, x.id, id, low, high),
                    LeafIds(LeftLeaves(steps) + (Leaves(Tip(x.id, low)) + Leaves(Tip(id, high))) + RightLeaves(steps)))
  {
    hide LeavesOf, Plug, LinksOk, TreeOk, SplitPages, Distinct;
    var l, r := Tip(x.id, low), Tip(id, high);
    var a, b := LeafIds(LeftLeaves(steps)), LeafIds(RightLeaves(steps));
    PathLeaves(pages, root, steps, x, top);
    NextPage(pages, a, x.id, b);
    SplitLinks(pages, a, x.id, b, id, low, high);
    assert LeafIds(LeftLeaves(steps) + (Leaves(l) + Leaves(r)) + RightLeaves(steps)) == a + [x.id, id] + b;
  }

  lemma {:induction false} SplitLeafStored(pages: Pages, steps: seq<Step>, x: Tree, low: seq<Entry>, high: seq<Entry>, id: PageId)
    requires StepsOk(steps) && x.Tip? && Stored(pages, Plug(steps, x)) && NamedOnce(pages, Plug(steps, x)) && id !in pages
    requires x.id in pages && pages[x.id].Leaf?
    requires pages[x.id].next.Some? ==> pages[x.id].next.value in pages && pages[pages[x.id].next.value].Leaf?
    ensures var pages' := SplitPages(pages, x.id, id, low, high);
            PathStored(pages', steps, x.id) && Stored(pages', Tip(x.id, low)) && Stored(pages', Tip(id, high))
  {
    hide Plug, PathOnce, PathStored;
    var pages' := SplitPages(pages, x.id, id, low, high);
    PlugIds(steps, x);
    PlugStored(pages, steps, x);
    PathFrame(pages, pages', steps, x.id);
  }

  /** The leaf is split, the new half linked in, and its separator still to be placed. */
  lemma {:induction false} SplitLeafPending(pages: Pages, root: PageId, steps: seq<Step>, x: Tree, top: nat, es: seq<Entry>, mid: nat, id: PageId)
    requires StepsOk(steps) && |steps| == top && x.Tip? && TreeOk(pages, root, Plug(steps, x), top) && id !in pages
    requires x.id in pages && pages[x.id].Leaf?
    requires pages[x.id].next.Some? ==> pages[x.id].next.value in pages && pages[pages[x.id].next.value].Leaf?
    requires Sorted(es) && 1 <= mid < |es| && LeafFits(es[..mid]) && LeafFits(es[mid..])
    requires forall i {:trigger es[i]} :: 0 <= i < |es| ==> Fits(es[i]) && Within(HoleLo(steps), HoleHi(steps), es[i].pos)
    ensures Pending(SplitPages(pages, x.id, id, es[..mid], es[mid..]), root, steps, Tip(x.id, es[..mid]), es[mid].pos, Tip(id, es[mid..]), top)
  {
    hide HalvesGood, HalvesOnce, HalvesStored, NamedOnce, Kept, ShapeOk, LeafFits, Sorted;
    SplitLeafShape(steps, x, top, es, mid, id);
    SplitLeafHeld(pages, root, steps, x, top, es[..mid], es[mid..], id);
    SplitLeafIds(pages, root, steps, x, top, es[..mid], es[mid..], id, SplitPages(pages, x.id, id, es[..mid], es[mid..]));
  }
}
