/** What each move of an index operation does to the ordered map the index stands for. */
module KeyMoves {
  import opened Bytes
  import opened Sequences
  import opened KeyOrder
  import opened KeyNode
  import opened KeySplit
  import opened KeyShape
  import opened KeyPath
  import opened KeyEntries
  import opened KeyStored
  import opened KeyGrow
  import opened KeyLeaf
  import opened KeyParent
  import opened KeyShrink

  lemma LeafSorted(es: seq<Entry>, lo: Edge, hi: Edge)
    requires LeafOk(es, lo, hi)
    ensures Sorted(es) && Ascending(Positions(es)) && LeafFits(es)
    ensures forall k {:trigger es[k]} :: 0 <= k < |es| ==> Fits(es[k])
  {
  }

  /** The leaf a position leads to decides whether the index has it. */
  lemma {:induction false} FoundInAll(steps: seq<Step>, x: Tree, pages: Pages, root: PageId, top: nat, p: Pos, i: nat)
    requires StepsOk(steps) && x.Tip? && TreeOk(pages, root, Plug(steps, x), top)
    requires Within(HoleLo(steps), HoleHi(steps), p) && IsPlace(Positions(x.entries), p, i)
    ensures var t, es := ToMap(All(Plug(steps, x))), x.entries;
            && (p in t <==> i < |es| && es[i].pos == p)
            && (p in t ==> t[p] == es[i].value)
  {
    hide ToMap, Sorted, Good, Stored, Once, Full, LinksOk, Ids, AllWithin, EdgeLe, Leaves, LeavesOf, Entries, Plug;
    var all, es := All(Plug(steps, x)), x.entries;
    PlaceInAll(steps, x, top, p, i);
    var k := |Entries(LeftLeaves(steps))| + i;
    assert i < |es| ==> all[k] == es[i];
    ToMapHas(all, p);
    Sides(steps, x, top);
    var b := Entries(RightLeaves(steps));
    if b != [] { OtherSide(b, HoleHi(steps), p); }
    assert i == |es| && k < |all| ==> all[k] == b[0];
    if p in ToMap(all) {
      var j :| 0 <= j < |all| && all[j].pos == p;
      OnlyPlace(all, p, k, j);
    }
  }

  lemma OnlyPlace(es: seq<Entry>, p: Pos, i: nat, j: nat)
    requires Sorted(es) && IsPlace(Positions(es), p, i) && j < |es| && es[j].pos == p
    ensures i == j
  {
    Total(p, p);
    assert Positions(es)[j] == p;
    if i < |es| { assert Positions(es)[i] == es[i].pos; }
  }

  /** The new entry stays within the leaf's range. */
  lemma {:induction false} PutLeaf(steps: seq<Step>, x: Tree, pages: Pages, root: PageId, top: nat, e: Entry, i: nat)
    requires StepsOk(steps) && x.Tip? && LeafOk(x.entries, HoleLo(steps), HoleHi(steps)) && Fits(e)
    requires Within(HoleLo(steps), HoleHi(steps), e.pos) && i <= |x.entries| && IsPlace(Positions(x.entries), e.pos, i)
    ensures var out := PutAt(x.entries, i, e);
            && out != [] && Sorted(out)
            && (forall k {:trigger out[k]} :: 0 <= k < |out| ==> Fits(out[k]) && Within(HoleLo(steps), HoleHi(steps), out[k].pos))
            && (LeafFits(out) ==> LeafOk(out, HoleLo(steps), HoleHi(steps)))
  {
    hide LeafFits, HoleLo, HoleHi, Fits;
    var out := PutAt(x.entries, i, e);
    PutSorted(x.entries, i, e);
    forall k | 0 <= k < |out| ensures Fits(out[k]) && Within(HoleLo(steps), HoleHi(steps), out[k].pos) {
      assert out[k] == e || out[k] in x.entries;
    }
  }

  /** An entry put in one leaf is put in the whole. */
  lemma {:induction false} PutInAll(steps: seq<Step>, x: Tree, pages: Pages, root: PageId, top: nat, e: Entry, i: nat, all: seq<Entry>)
    requires StepsOk(steps) && x.Tip? && TreeOk(pages, root, Plug(steps, x), top)
    requires Within(HoleLo(steps), HoleHi(steps), e.pos) && i <= |x.entries| && IsPlace(Positions(x.entries), e.pos, i)
    requires all == Entries(LeftLeaves(steps)) + PutAt(x.entries, i, e) + Entries(RightLeaves(steps))
    ensures ToMap(all) == ToMap(All(Plug(steps, x)))[e.pos := e.value]
  {
    hide ToMap, Sorted, Good, Stored, Once, Full, LinksOk, Ids, IsPlace, Plug, Entries, LeftLeaves, RightLeaves, PutAt;
    var a, b := Entries(LeftLeaves(steps)), Entries(RightLeaves(steps));
    PlaceInAll(steps, x, top, e.pos, i);
    Sides(steps, x, top);
    if b != [] { OtherSide(b, HoleHi(steps), e.pos); }
    PutBetween(a, x.entries, b, i, e);
  }

  /** An entry put between two runs of entries, at its place in the whole. */
  lemma {:induction false} PutBetween(a: seq<Entry>, es: seq<Entry>, b: seq<Entry>, i: nat, e: Entry)
    requires i <= |es| && Sorted(a + es + b) && IsPlace(Positions(a + es + b), e.pos, |a| + i)
    requires b != [] ==> b[0].pos != e.pos
    ensures ToMap(a + PutAt(es, i, e) + b) == ToMap(a + es + b)[e.pos := e.value]
  {
    hide ToMap, Sorted, IsPlace, PutAt;
    PutMap(a + es + b, |a| + i, e);
    PutJoin(a, es, b, i, e);
  }

  lemma PutJoin(a: seq<Entry>, es: seq<Entry>, b: seq<Entry>, i: nat, e: Entry)
    requires i <= |es|
    requires i == |es| && b != [] ==> b[0].pos != e.pos
    ensures PutAt(a + es + b, |a| + i, e) == a + PutAt(es, i, e) + b
  {
    var all := a + es + b;
    if i < |es| {
      assert all[|a| + i] == es[i];
    } else if b != [] {
      assert all[|a| + i] == b[0];
    }
  }

  lemma OtherSide(b: seq<Entry>, hi: Edge, p: Pos)
    requires b != [] && AllWithin(b, hi, Highest) && Before(p, hi)
    ensures b[0].pos != p
  {
    assert Within(hi, Highest, b[0].pos);
  }

  lemma {:induction false} AllOf(left: seq<Tree>, mid: seq<Tree>, right: seq<Tree>)
    ensures Entries(left + mid + right) == Entries(left) + Entries(mid) + Entries(right)
  {
    EntriesJoin(left + mid, right);
    EntriesJoin(left, mid);
  }

  lemma {:induction false} PutWhole(steps: seq<Step>, x: Tree, x': Tree, pages: Pages, root: PageId, top: nat, e: Entry, i: nat)
    requires StepsOk(steps) && x.Tip? && TreeOk(pages, root, Plug(steps, x), top)
    requires Within(HoleLo(steps), HoleHi(steps), e.pos) && i <= |x.entries| && IsPlace(Positions(x.entries), e.pos, i)
    requires x' == Tip(x.id, PutAt(x.entries, i, e))
    ensures ToMap(All(Plug(steps, x'))) == ToMap(All(Plug(steps, x)))[e.pos := e.value]
  {
    hide TreeOk, ToMap, IsPlace, Plug, LeavesOf;
    PlugLeaves(steps, x');
    AllOf(LeftLeaves(steps), Leaves(x'), RightLeaves(steps));
    TipEntries(x');
    PutInAll(steps, x, pages, root, top, e, i, All(Plug(steps, x')));
  }

  lemma TwoTips(l: Tree, r: Tree)
    requires l.Tip? && r.Tip?
    ensures Entries([l] + [r]) == l.entries + r.entries
  {
    EntriesJoin([l], [r]);
    TipEntries(l);
    TipEntries(r);
  }

  lemma {:induction false} PutSplit(steps: seq<Step>, x: Tree, t: Tree, pages: Pages, root: PageId, top: nat, e: Entry, i: nat, mid: nat, id: PageId)
    requires StepsOk(steps) && x.Tip? && TreeOk(pages, root, Plug(steps, x), top)
    requires Within(HoleLo(steps), HoleHi(steps), e.pos) && i <= |x.entries| && IsPlace(Positions(x.entries), e.pos, i)
    requires var out := PutAt(x.entries, i, e);
             mid <= |out| && Leaves(t) == LeftLeaves(steps) + ([Tip(x.id, out[..mid])] + [Tip(id, out[mid..])]) + RightLeaves(steps)
    ensures ToMap(All(t)) == ToMap(All(Plug(steps, x)))[e.pos := e.value]
  {
    hide TreeOk, ToMap, IsPlace, Plug, LeavesOf, Leaves, PutAt, LeftLeaves, RightLeaves, Entries, StepsOk, Within, Positions, HoleLo, HoleHi;
    var out := PutAt(x.entries, i, e);
    var l, r := Tip(x.id, out[..mid]), Tip(id, out[mid..]);
    AllOf(LeftLeaves(steps), [l] + [r], RightLeaves(steps));
    TwoTips(l, r);
    Halves(out, mid);
    PutInAll(steps, x, pages, root, top, e, i, All(t));
  }

  lemma Halves(out: seq<Entry>, mid: nat)
    requires mid <= |out|
    ensures out[..mid] + out[mid..] == out
  {
  }

  lemma OverLeaf(es: seq<Entry>)
    requires !LeafFits(es) && Sizes(EntrySizes(es))
    ensures |EntrySizes(es)| >= 2 && Sum(EntrySizes(es)) > 0
  {
    hide Sum;
    OverflowIsSeveral(EntrySizes(es), PAGE_SIZE - LEAF_HEADER);
  }

  lemma {:induction false} NeighbourPages(pages: Pages, root: PageId, steps: seq<Step>, x: Tree, top: nat)
    requires StepsOk(steps) && x.Tip? && TreeOk(pages, root, Plug(steps, x), top)
    ensures x.id in pages && pages[x.id].Leaf?
    ensures pages[x.id].next.Some? ==> pages[x.id].next.value in pages && pages[pages[x.id].next.value].Leaf?
    ensures pages[x.id].prev.Some? ==> pages[x.id].prev.value in pages && pages[pages[x.id].prev.value].Leaf?
  {
    hide TreeOk, LeavesOf, LinksOk;
    PathLeaves(pages, root, steps, x, top);
    NextPage(pages, LeafIds(LeftLeaves(steps)), x.id, LeafIds(RightLeaves(steps)));
  }

  // The parent of a split node -------------------------------------------------------------------

  lemma ParentPage(pages: Pages, root: PageId, steps: seq<Step>, l: Tree, sep: Pos, r: Tree, top: nat)
    requires Pending(pages, root, steps, l, sep, r, top) && steps != []
    ensures var s := steps[|steps| - 1];
            && StepOk(s) && s.node.id in pages && pages[s.node.id] == PageFor(KidIds(s.node.kids)[s.at := l.id], s.node.seps)
            && Ascending(s.node.seps) && IsPlace(s.node.seps, sep, s.at) && SepPositions(pages[s.node.id].seps) == s.node.seps
  {
    hide HalvesOnce, Good, IsPlace, Full, PathFull, LinksOk, Stored;
    Widened(steps, l, sep, r, top);
  }

  lemma ParentLive(pages: Pages, root: PageId, steps: seq<Step>, l: Tree, sep: Pos, r: Tree, top: nat)
    requires Pending(pages, root, steps, l, sep, r, top) && steps != []
    ensures steps[|steps| - 1].node.id in pages
  {
    hide HalvesGood, HalvesStored;
  }

  lemma SamePlace(ps: seq<Pos>, p: Pos, i: nat, j: nat)
    requires IsPlace(ps, p, i) && IsPlace(ps, p, j)
    ensures i == j
  {
    var first := if i < j then i else j;
    if first < |ps| { Total(ps[first], p); }
  }

  lemma ParentOver(pages: Pages, root: PageId, steps: seq<Step>, l: Tree, sep: Pos, r: Tree, top: nat)
    requires Pending(pages, root, steps, l, sep, r, top) && steps != [] && StepOk(steps[|steps| - 1])
    requires !InteriorFits(WideSeps(steps[|steps| - 1], sep))
    ensures var s, ws := steps[|steps| - 1], WideSeps(steps[|steps| - 1], sep);
            && InteriorFits(s.node.seps) && |ws| == |s.node.seps| + 1 && |SepSizes(ws)| >= 2 && Sum(SepSizes(ws)) > 0
            && (forall i {:trigger ws[i]} :: 0 <= i < |ws| ==> |ws[i].key| + 12 <= MAX_ENTRY_BYTES)
            && Sum(SepSizes(ws)) <= Sum(SepSizes(s.node.seps)) + 2006
  {
    hide HalvesOnce, HalvesStored, Good, IsPlace, Full, PathFull, Sum, KidsGood, PathGood, OthersGood;
    var s, ws := steps[|steps| - 1], WideSeps(steps[|steps| - 1], sep);
    Widened(steps, l, sep, r, top);
    WideSum(s.node.seps, s.at, sep);
    OverflowIsSeveral(SepSizes(ws), PAGE_SIZE - INTERIOR_HEADER);
  }

  /** On the page, the halves are the two sides of the promoted separator, whose child leads the
      right one. */
  lemma HalfPages(s: Step, l: Tree, sep: Pos, r: Tree, mid: nat, id: PageId)
    requires StepOk(s) && mid < |WideSeps(s, sep)| && |WideKids(s, l, r)| == |WideSeps(s, sep)| + 1
    ensures var page := PageFor(KidIds(WideKids(s, l, r)), WideSeps(s, sep));
            var low, high := LowHalf(s, l, sep, r, mid), HighHalf(s, l, sep, r, mid, id);
            && PageFor(KidIds(low.kids), low.seps) == Interior(page.leftmost, page.seps[..mid])
            && PageFor(KidIds(high.kids), high.seps) == Interior(page.seps[mid].child, page.seps[mid + 1..])
  {
    hide WideKids, WideSeps;
    var wk, ws := WideKids(s, l, r), WideSeps(s, sep);
    var page := PageFor(KidIds(wk), ws);
    var low, high := LowHalf(s, l, sep, r, mid), HighHalf(s, l, sep, r, mid, id);
    assert PageFor(KidIds(low.kids), low.seps).seps == page.seps[..mid];
    assert PageFor(KidIds(high.kids), high.seps).seps == page.seps[mid + 1..];
  }

  // Removing an entry ----------------------------------------------------------------------------

  lemma RemoveJoin(a: seq<Entry>, es: seq<Entry>, b: seq<Entry>, i: nat)
    requires i < |es|
    ensures (a + es + b)[|a| + i] == es[i]
    ensures RemoveAt(a + es + b, |a| + i) == a + RemoveAt(es, i) + b
  {
  }

  /** An entry taken from one leaf is taken from the whole. */
  lemma {:induction false} RemoveInAll(steps: seq<Step>, x: Tree, pages: Pages, root: PageId, top: nat, i: nat, all: seq<Entry>)
    requires StepsOk(steps) && x.Tip? && TreeOk(pages, root, Plug(steps, x), top) && i < |x.entries|
    requires all == Entries(LeftLeaves(steps)) + RemoveAt(x.entries, i) + Entries(RightLeaves(steps))
    ensures ToMap(all) == ToMap(All(Plug(steps, x))) - {x.entries[i].pos}
  {
    hide ToMap, Sorted, Good, Stored, Once, Full, LinksOk, Ids, Plug, LeavesOf;
    var was, a, es, b := All(Plug(steps, x)), Entries(LeftLeaves(steps)), x.entries, Entries(RightLeaves(steps));
    PlugLeaves(steps, x);
    AllOf(LeftLeaves(steps), Leaves(x), RightLeaves(steps));
    TipEntries(x);
    TreeEntries(Plug(steps, x), top, Lowest, Highest);
    RemoveJoin(a, es, b, i);
    RemoveMap(was, |a| + i);
  }

  lemma RemoveLeaf(es: seq<Entry>, lo: Edge, hi: Edge, i: nat)
    requires LeafOk(es, lo, hi) && i < |es|
    ensures LeafOk(RemoveAt(es, i), lo, hi)
  {
    hide Sum, Within, Less;
    var out := RemoveAt(es, i);
    RemoveSorted(es, i);
    var a, b := EntrySizes(es[..i]), EntrySizes(es[i + 1..]);
    assert EntrySizes(out) == a + b;
    assert EntrySizes(es) == a + [EntrySize(es[i])] + b;
    SumJoin(a, b);
    SumJoin(a + [EntrySize(es[i])], b);
    SumJoin(a, [EntrySize(es[i])]);
    forall k | 0 <= k < |out| ensures Fits(out[k]) && Within(lo, hi, out[k].pos) {
      assert out[k] == es[if k < i then k else k + 1];
    }
  }

  lemma {:induction false} RemoveWhole(steps: seq<Step>, x: Tree, pages: Pages, root: PageId, top: nat, i: nat)
    requires StepsOk(steps) && x.Tip? && TreeOk(pages, root, Plug(steps, x), top) && i < |x.entries|
    ensures ToMap(All(Plug(steps, x.(entries := RemoveAt(x.entries, i))))) == ToMap(All(Plug(steps, x))) - {x.entries[i].pos}
  {
    hide TreeOk, ToMap, Plug, LeavesOf;
    var x' := x.(entries := RemoveAt(x.entries, i));
    PlugLeaves(steps, x');
    AllOf(LeftLeaves(steps), Leaves(x'), RightLeaves(steps));
    TipEntries(x');
    RemoveInAll(steps, x, pages, root, top, i, All(Plug(steps, x')));
  }

  /** The last entry of a leaf goes, and the leaf with it. */
  lemma {:induction false} RemoveLast(steps: seq<Step>, x: Tree, pages: Pages, root: PageId, top: nat, t: Tree)
    requires StepsOk(steps) && x.Tip? && TreeOk(pages, root, Plug(steps, x), top) && |x.entries| == 1
    requires Leaves(t) == LeftLeaves(steps) + RightLeaves(steps)
    ensures ToMap(All(t)) == ToMap(All(Plug(steps, x))) - {x.entries[0].pos}
  {
    hide TreeOk, ToMap, Plug, LeavesOf, Leaves;
    EntriesJoin(LeftLeaves(steps), RightLeaves(steps));
    assert RemoveAt(x.entries, 0) == [];
    assert All(t) == Entries(LeftLeaves(steps)) + [] + Entries(RightLeaves(steps));
    RemoveInAll(steps, x, pages, root, top, 0, All(t));
  }

  // Up the path to an ancestor with another child ------------------------------------------------

  /** The nodes from step `k` down to the leaf have no other child: they are a chain of pages. */
  ghost predicate OnlyChain(steps: seq<Step>, k: nat, x: Tree, y: Tree, gone: set<PageId>) {
    && StepsOk(steps) && k <= |steps|
    && Plug(steps, x) == Plug(steps[..k], y) && Ids(y) == gone + {x.id}
    && LeftLeaves(steps) == LeftLeaves(steps[..k]) && RightLeaves(steps) == RightLeaves(steps[..k])
  }

  lemma ChainStart(steps: seq<Step>, x: Tree)
    requires StepsOk(steps) && x.Tip?
    ensures OnlyChain(steps, |steps|, x, x, {})
  {
    assert steps[..|steps|] == steps;
  }

  lemma ChainUp(steps: seq<Step>, k: nat, x: Tree, y: Tree, gone: set<PageId>)
    requires OnlyChain(steps, k, x, y, gone) && k > 0 && steps[k - 1].node.seps == []
    ensures StepOk(steps[k - 1]) && OnlyChain(steps, k - 1, x, Kid(steps[k - 1], y), gone + {steps[k - 1].node.id})
  {
    hide Ids, Leaves;
    var s := steps[k - 1];
    assert steps[..k][..k - 1] == steps[..k - 1] && steps[..k][k - 1] == s;
    OnlyKid(s, y);
    assert LeavesOf([]) == [];
  }
}
