/** Placing a separator in the parent: in place when it fits, and else by splitting the parent. */
module KeyParent {
  import opened Bytes
  import opened Sequences
  import opened KeyOrder
  import opened KeyNode
  import opened KeySplit
  import opened KeyShape
  import opened KeyPath
  import opened KeyEntries
  import opened KeyStored
  import opened KeyGrow

  /** The parent's children and separators with `r` after `l`. */
  ghost function WideKids(s: Step, l: Tree, r: Tree): seq<Tree>
    requires StepOk(s)
  {
    KidsBefore(s) + [l, r] + KidsAfter(s)
  }

  ghost function WideSeps(s: Step, sep: Pos): seq<Pos>
    requires StepOk(s)
  {
    InsertAt(s.node.seps, s.at, sep)
  }

  /** The separator's place among the parent's is the place of the child it splits. */
  lemma SepPlace(seps: seq<Pos>, at: nat, sep: Pos, lo: Edge, hi: Edge)
    requires SepsIn(seps, lo, hi) && at <= |seps| && SepFits(sep, LoOf(seps, at, lo), HiOf(seps, at, hi))
    ensures IsPlace(seps, sep, at)
    ensures Ascending(InsertAt(seps, at, sep))
  {
    forall j | 0 <= j < at ensures Less(seps[j], sep) {
      if j < at - 1 { Trans(seps[j], seps[at - 1], sep); }
    }
    forall j | at <= j < |seps| ensures Less(sep, seps[j]) && !Less(seps[j], sep) {
      if at < j { Trans(sep, seps[at], seps[j]); }
      Total(sep, seps[j]);
    }
  }

  lemma WideSepsIn(seps: seq<Pos>, at: nat, sep: Pos, lo: Edge, hi: Edge)
    requires SepsIn(seps, lo, hi) && EdgeLe(lo, hi) && at <= |seps|
    requires SepFits(sep, LoOf(seps, at, lo), HiOf(seps, at, hi)) && InteriorFits(seps)
    ensures SepsIn(InsertAt(seps, at, sep), lo, hi)
  {
    SepPlace(seps, at, sep, lo, hi);
    RangeLe(seps, lo, hi, at);
    Widen(LoOf(seps, at, lo), HiOf(seps, at, hi), lo, hi, sep);
    var ws := InsertAt(seps, at, sep);
    forall i | 0 <= i < |ws| ensures |ws[i].key| + 12 <= MAX_ENTRY_BYTES && Within(lo, hi, ws[i]) {
      assert ws[i] == if i < at then seps[i] else if i == at then sep else seps[i - 1];
    }
  }

  lemma {:induction false} WideKidsGood(s: Step, l: Tree, sep: Pos, r: Tree, level: nat, lo: Edge, hi: Edge)
    requires StepOk(s) && OthersGood(s, level, lo, hi)
    requires Good(l, level, LoOf(s.node.seps, s.at, lo), Mark(sep)) && Good(r, level, Mark(sep), HiOf(s.node.seps, s.at, hi))
    ensures KidsGood(WideKids(s, l, r), WideSeps(s, sep), level, lo, hi)
  {
    hide Good;
    var kids, seps, at := s.node.kids, s.node.seps, s.at;
    var wk, ws := WideKids(s, l, r), WideSeps(s, sep);
    forall i | 0 <= i < |wk| ensures Good(wk[i], level, LoOf(ws, i, lo), HiOf(ws, i, hi)) {
      if i < at {
        assert wk[i] == kids[i];
        assert LoOf(ws, i, lo) == LoOf(seps, i, lo) && HiOf(ws, i, hi) == HiOf(seps, i, hi);
      } else if i == at {
        assert LoOf(ws, i, lo) == LoOf(seps, at, lo) && HiOf(ws, i, hi) == Mark(sep);
      } else if i == at + 1 {
        assert LoOf(ws, i, lo) == Mark(sep) && HiOf(ws, i, hi) == HiOf(seps, at, hi);
      } else {
        assert wk[i] == kids[i - 1];
        assert LoOf(ws, i, lo) == LoOf(seps, i - 1, lo) && HiOf(ws, i, hi) == HiOf(seps, i - 1, hi);
      }
    }
  }

  /** What the halves make of the parent, all but its size. */
  lemma {:induction false} Widened(steps: seq<Step>, l: Tree, sep: Pos, r: Tree, top: nat)
    requires HalvesGood(steps, l, sep, r, top) && steps != []
    ensures var s, up := steps[|steps| - 1], steps[..|steps| - 1];
            && IsPlace(s.node.seps, sep, s.at)
            && SepsIn(WideSeps(s, sep), HoleLo(up), HoleHi(up))
            && KidsGood(WideKids(s, l, r), WideSeps(s, sep), top - |steps|, HoleLo(up), HoleHi(up))
            && EdgeLe(HoleLo(up), HoleHi(up)) && SepsOk(s.node.seps, HoleLo(up), HoleHi(up)) && PathGood(up, top)
  {
    hide Good, SepsIn, KidsGood, IsPlace, SepFits, OthersGood, EdgeLe, Full, PathFull;
    var s, up := steps[|steps| - 1], steps[..|steps| - 1];
    PathRange(up, top);
    assert SepsOk(s.node.seps, HoleLo(up), HoleHi(up));
    WideSepsIn(s.node.seps, s.at, sep, HoleLo(up), HoleHi(up));
    SepPlace(s.node.seps, s.at, sep, HoleLo(up), HoleHi(up));
    WideKidsGood(s, l, sep, r, top - |steps|, HoleLo(up), HoleHi(up));
  }

  lemma {:induction false} PathRange(steps: seq<Step>, top: nat)
    requires StepsOk(steps) && PathGood(steps, top)
    ensures EdgeLe(HoleLo(steps), HoleHi(steps))
    decreases |steps|
  {
    hide SepsIn, OthersGood;
    if steps != [] {
      var s, up := steps[|steps| - 1], steps[..|steps| - 1];
      PathRange(up, top);
      RangeLe(s.node.seps, HoleLo(up), HoleHi(up), s.at);
    }
  }

  /** On the page, the separator goes in at its place. */
  lemma WidePage(s: Step, l: Tree, sep: Pos, r: Tree)
    requires StepOk(s)
    ensures var page := PageFor(KidIds(s.node.kids)[s.at := l.id], s.node.seps);
            PageFor(KidIds(WideKids(s, l, r)), WideSeps(s, sep)) == page.(seps := InsertAt(page.seps, s.at, Sep(sep, r.id)))
  {
    var wk, ws, at := WideKids(s, l, r), WideSeps(s, sep), s.at;
    var ids := KidIds(s.node.kids)[at := l.id];
    assert KidIds(wk) == ids[..at + 1] + [r.id] + ids[at + 1..];
    var a := PageFor(KidIds(wk), ws).seps;
    var b := InsertAt(PageFor(ids, s.node.seps).seps, at, Sep(sep, r.id));
    assert a == b;
  }

  lemma {:induction false} WideLeaves(s: Step, l: Tree, r: Tree)
    requires StepOk(s)
    ensures LeavesOf(WideKids(s, l, r)) == LeavesOf(KidsBefore(s)) + (Leaves(l) + Leaves(r)) + LeavesOf(KidsAfter(s))
    ensures IdsOf(WideKids(s, l, r)) == IdsOf(KidsBefore(s)) + (Ids(l) + Ids(r)) + IdsOf(KidsAfter(s))
  {
    hide LeavesOf, IdsOf;
    LeavesJoin(KidsBefore(s) + [l, r], KidsAfter(s));
    LeavesJoin(KidsBefore(s), [l, r]);
    IdsJoin(KidsBefore(s) + [l, r], KidsAfter(s));
    IdsJoin(KidsBefore(s), [l, r]);
    TwoTrees(l, r);
  }

  lemma {:induction false} WideOnce(s: Step, l: Tree, r: Tree)
    requires StepOk(s)
    ensures OnceAll(WideKids(s, l, r)) <==>
              && OnceAll(KidsBefore(s)) && Once(l) && Once(r) && OnceAll(KidsAfter(s)) && Ids(l) !! Ids(r)
              && IdsOf(KidsBefore(s)) !! Ids(l) + Ids(r) && IdsOf(KidsBefore(s)) + Ids(l) + Ids(r) !! IdsOf(KidsAfter(s))
  {
    hide OnceAll, IdsOf, Once, Ids;
    OnceJoin(KidsBefore(s) + [l, r], KidsAfter(s));
    OnceJoin(KidsBefore(s), [l, r]);
    IdsJoin(KidsBefore(s), [l, r]);
    TwoTrees(l, r);
  }

  lemma {:induction false} WideStored(pages: Pages, s: Step, l: Tree, r: Tree)
    requires StepOk(s)
    ensures StoredAll(pages, WideKids(s, l, r)) <==>
              StoredAll(pages, KidsBefore(s)) && Stored(pages, l) && Stored(pages, r) && StoredAll(pages, KidsAfter(s))
  {
    hide StoredAll, Stored;
    StoredJoin(pages, KidsBefore(s) + [l, r], KidsAfter(s));
    StoredJoin(pages, KidsBefore(s), [l, r]);
    assert [l, r] == [l] + [r];
    StoredJoin(pages, [l], [r]);
    StoredOne(pages, l);
    StoredOne(pages, r);
  }

  // The separator fits the parent ----------------------------------------------------------------

  ghost function WideNode(s: Step, l: Tree, sep: Pos, r: Tree): Tree
    requires StepOk(s)
  {
    Branch(s.node.id, WideKids(s, l, r), WideSeps(s, sep))
  }

  lemma WideFull(steps: seq<Step>, l: Tree, sep: Pos, r: Tree, top: nat)
    requires HalvesGood(steps, l, sep, r, top) && steps != []
    ensures var s, up := steps[|steps| - 1], steps[..|steps| - 1];
            PathFull(up) && (forall i {:trigger WideKids(s, l, r)[i]} :: 0 <= i < |WideKids(s, l, r)| ==> Full(WideKids(s, l, r)[i]))
  {
    hide Good, SepFits, PathGood, SepsOk, Full;
    var n := |steps| - 1;
    var s, up := steps[n], steps[..n];
    var wk := WideKids(s, l, r);
    assert forall k {:trigger up[k]} :: 0 <= k < n ==> up[k] == steps[k];
    forall i | 0 <= i < |wk| ensures Full(wk[i]) {
      if i < s.at { assert wk[i] == steps[n].node.kids[i]; }
      if i > s.at + 1 { assert wk[i] == steps[n].node.kids[i - 1]; }
    }
  }

  lemma PlaceShape(steps: seq<Step>, l: Tree, sep: Pos, r: Tree, top: nat)
    requires HalvesGood(steps, l, sep, r, top) && steps != [] && InteriorFits(WideSeps(steps[|steps| - 1], sep))
    ensures ShapeOk(Plug(steps[..|steps| - 1], WideNode(steps[|steps| - 1], l, sep, r)), top)
  {
    hide SepsIn, SepFits, PathGood, PathFull, KidsGood, IsPlace, Plug, InteriorFits, LeafOk;
    var s, up := steps[|steps| - 1], steps[..|steps| - 1];
    var node := WideNode(s, l, sep, r);
    Widened(steps, l, sep, r, top);
    WideFull(steps, l, sep, r, top);
    assert Good(node, top - |up|, HoleLo(up), HoleHi(up));
    assert Full(node);
    PlugGood(up, node, top);
    PlugFull(up, node);
    PlugRoot(up, node);
  }

  /** Where the ids of the halves and of the rest are. */
  lemma HalvesIds(pages: Pages, steps: seq<Step>, l: Tree, r: Tree)
    requires StepsOk(steps) && steps != [] && HalvesOnce(pages, steps, l, r)
    ensures var s, up := steps[|steps| - 1], steps[..|steps| - 1];
            && PathOnce(up) && OnceAll(WideKids(s, l, r)) && s.node.id !in IdsOf(WideKids(s, l, r))
            && PathIds(up) !! {s.node.id} + IdsOf(WideKids(s, l, r))
            && pages.Keys == PathIds(up) + {s.node.id} + IdsOf(WideKids(s, l, r))
            && s.node.id in pages
  {
    hide OnceAll, IdsOf, Once, Ids;
    var s := steps[|steps| - 1];
    WideLeaves(s, l, r);
    WideOnce(s, l, r);
  }

  /** Writing the parent's page, and a new one, disturbs nothing else. */
  lemma HalvesElsewhere(pages: Pages, root: PageId, steps: seq<Step>, l: Tree, r: Tree, pages': Pages)
    requires StepsOk(steps) && steps != [] && HalvesOnce(pages, steps, l, r) && HalvesStored(pages, root, steps, l, r)
    requires Same(pages, pages', pages.Keys - {steps[|steps| - 1].node.id})
    ensures var s, up := steps[|steps| - 1], steps[..|steps| - 1];
            && PathStored(pages', up, s.node.id) && StoredAll(pages', WideKids(s, l, r))
            && LinksOk(pages', LeafIds(LeftLeaves(up) + LeavesOf(WideKids(s, l, r)) + RightLeaves(up)))
  {
    hide OnceAll, IdsOf, Once, Ids, LeavesOf, Leaves, StoredAll, Stored, PathIds, PathOnce, LinksOk;
    var s, up := steps[|steps| - 1], steps[..|steps| - 1];
    HalvesIds(pages, steps, l, r);
    assert s.node.id in {s.node.id} + IdsOf(WideKids(s, l, r));
    SameSome(pages, pages', pages.Keys - {s.node.id}, PathIds(up));
    SameSome(pages, pages', pages.Keys - {s.node.id}, IdsOf(WideKids(s, l, r)));
    PathFrame(pages, pages', up, s.node.id);
    WideStored(pages, s, l, r);
    StoredAllFrame(pages, pages', WideKids(s, l, r));
    WideLeaves(s, l, r);
    Regroup(LeftLeaves(up), LeavesOf(KidsBefore(s)), Leaves(l) + Leaves(r), LeavesOf(KidsAfter(s)), RightLeaves(up));
    var ids := LeafIds(LeftLeaves(steps) + (Leaves(l) + Leaves(r)) + RightLeaves(steps));
    assert s.node.id in pages && pages[s.node.id].Interior?;
    forall k | 0 <= k < |ids| && ids[k] in pages && pages[ids[k]].Leaf? ensures ids[k] in pages' && pages'[ids[k]] == pages[ids[k]] {
      assert ids[k] in pages.Keys - {s.node.id};
    }
    LinksKept(pages, pages', ids);
  }

  lemma PlaceKept(pages: Pages, root: PageId, steps: seq<Step>, l: Tree, sep: Pos, r: Tree)
    requires StepsOk(steps) && steps != [] && HalvesOnce(pages, steps, l, r) && HalvesStored(pages, root, steps, l, r)
    ensures var s, up := steps[|steps| - 1], steps[..|steps| - 1];
            var node := WideNode(s, l, sep, r);
            var pages' := pages[s.node.id := PageFor(KidIds(node.kids), node.seps)];
            && NamedOnce(pages', Plug(up, node)) && Kept(pages', root, Plug(up, node))
            && Leaves(Plug(up, node)) == LeftLeaves(steps) + (Leaves(l) + Leaves(r)) + RightLeaves(steps)
  {
    hide OnceAll, IdsOf, LeavesOf, StoredAll, PathIds, PathOnce, LinksOk, PathStored, WideKids, WideSeps, Plug, KidIds, PageFor;
    var s, up := steps[|steps| - 1], steps[..|steps| - 1];
    var node := WideNode(s, l, sep, r);
    WidthsMatch(s, l, sep, r);
    var pages' := pages[s.node.id := PageFor(KidIds(node.kids), node.seps)];
    HalvesIds(pages, steps, l, r);
    HalvesElsewhere(pages, root, steps, l, r, pages');
    PlugIds(up, node);
    PlugStored(pages', up, node);
    PlugLeaves(up, node);
    PlugRoot(up, node);
    WideLeaves(s, l, r);
    Regroup(LeftLeaves(up), LeavesOf(KidsBefore(s)), Leaves(l) + Leaves(r), LeavesOf(KidsAfter(s)), RightLeaves(up));
  }

  lemma WidthsMatch(s: Step, l: Tree, sep: Pos, r: Tree)
    requires StepOk(s)
    ensures |WideKids(s, l, r)| == |WideSeps(s, sep)| + 1 && |KidIds(WideKids(s, l, r))| == |WideKids(s, l, r)|
  {
  }

  /** The separator fits: the split is published. */
  lemma PlaceSeparator(pages: Pages, root: PageId, steps: seq<Step>, l: Tree, sep: Pos, r: Tree, top: nat)
    requires Pending(pages, root, steps, l, sep, r, top) && steps != [] && InteriorFits(WideSeps(steps[|steps| - 1], sep))
    ensures var s, up := steps[|steps| - 1], steps[..|steps| - 1];
            var node := WideNode(s, l, sep, r);
            var pages' := pages[s.node.id := PageFor(KidIds(node.kids), node.seps)];
            && TreeOk(pages', root, Plug(up, node), top)
            && Leaves(Plug(up, node)) == LeftLeaves(steps) + (Leaves(l) + Leaves(r)) + RightLeaves(steps)
  {
    hide ShapeOk, NamedOnce, Kept, HalvesOnce, HalvesStored, Leaves;
    PlaceShape(steps, l, sep, r, top);
    PlaceKept(pages, root, steps, l, sep, r);
  }

  // The parent splits in turn --------------------------------------------------------------------

  lemma SepsSplit(seps: seq<Pos>, lo: Edge, hi: Edge, mid: nat)
    requires SepsIn(seps, lo, hi) && 1 <= mid < |seps|
    ensures SepsIn(seps[..mid], lo, Mark(seps[mid])) && SepsIn(seps[mid + 1..], Mark(seps[mid]), hi)
    ensures SepFits(seps[mid], lo, hi)
  {
    forall i | 0 <= i < |seps| && i != mid
      ensures i < mid ==> Less(seps[i], seps[mid])
      ensures i > mid ==> !Less(seps[i], seps[mid])
    {
      Total(seps[i], seps[mid]);
    }
    if lo.Mark? {
      Total(lo.pos, seps[0]);
      if lo.pos != seps[0] { Trans(lo.pos, seps[0], seps[mid]); }
    }
  }

  lemma {:induction false} KidsSplit(kids: seq<Tree>, seps: seq<Pos>, level: nat, lo: Edge, hi: Edge, mid: nat)
    requires KidsGood(kids, seps, level, lo, hi) && mid < |seps|
    ensures KidsGood(kids[..mid + 1], seps[..mid], level, lo, Mark(seps[mid]))
    ensures KidsGood(kids[mid + 1..], seps[mid + 1..], level, Mark(seps[mid]), hi)
  {
    hide Good;
    var a, b := kids[..mid + 1], kids[mid + 1..];
    forall i | 0 <= i < |a| ensures Good(a[i], level, LoOf(seps[..mid], i, lo), HiOf(seps[..mid], i, Mark(seps[mid]))) {
      assert a[i] == kids[i];
      assert LoOf(seps[..mid], i, lo) == LoOf(seps, i, lo) && HiOf(seps[..mid], i, Mark(seps[mid])) == HiOf(seps, i, hi);
    }
    forall i | 0 <= i < |b| ensures Good(b[i], level, LoOf(seps[mid + 1..], i, Mark(seps[mid])), HiOf(seps[mid + 1..], i, hi)) {
      assert b[i] == kids[mid + 1 + i];
    }
  }

  /** Both halves of an overfull parent fit, with a separator left in each. */
  lemma ParentHalvesFit(seps: seq<Pos>, ws: seq<Pos>, mid: nat)
    requires InteriorFits(seps) && !InteriorFits(ws) && |ws| == |seps| + 1
    requires forall i {:trigger ws[i]} :: 0 <= i < |ws| ==> |ws[i].key| + 12 <= MAX_ENTRY_BYTES
    requires Sum(SepSizes(ws)) <= Sum(SepSizes(seps)) + 2006
    requires var sizes := SepSizes(ws);
             1 <= mid < |sizes| && (mid > 1 ==> Sum(sizes[..mid]) <= Sum(sizes) / 2) && Sum(sizes[..mid]) + sizes[mid] > Sum(sizes) / 2
    ensures InteriorFits(ws[..mid]) && InteriorFits(ws[mid + 1..]) && mid + 1 < |ws|
  {
    hide Sum;
    var sizes := SepSizes(ws);
    HalvesFit(sizes, mid, PAGE_SIZE - INTERIOR_HEADER);
    assert SepSizes(ws[..mid]) == sizes[..mid];
    assert SepSizes(ws[mid + 1..]) == sizes[mid + 1..];
    assert sizes[mid..] == [sizes[mid]] + sizes[mid + 1..];
    SumJoin([sizes[mid]], sizes[mid + 1..]);
    SumOne(sizes[mid]);
  }

  lemma WideSum(seps: seq<Pos>, at: nat, sep: Pos)
    requires at <= |seps| && |sep.key| + 12 <= MAX_ENTRY_BYTES
    ensures Sum(SepSizes(InsertAt(seps, at, sep))) == Sum(SepSizes(seps)) + SepSize(sep) <= Sum(SepSizes(seps)) + 2006
  {
    hide Sum;
    var ws := InsertAt(seps, at, sep);
    var a, b := SepSizes(seps[..at]), SepSizes(seps[at..]);
    assert SepSizes(ws) == a + [SepSize(sep)] + b;
    assert SepSizes(seps) == a + b;
    SumJoin(a + [SepSize(sep)], b);
    SumJoin(a, [SepSize(sep)]);
    SumJoin(a, b);
    SumOne(SepSize(sep));
  }

  /** The two halves of a widened parent. */
  ghost function LowHalf(s: Step, l: Tree, sep: Pos, r: Tree, mid: nat): Tree
    requires StepOk(s) && mid < |WideSeps(s, sep)|
  {
    Branch(s.node.id, WideKids(s, l, r)[..mid + 1], WideSeps(s, sep)[..mid])
  }

  ghost function HighHalf(s: Step, l: Tree, sep: Pos, r: Tree, mid: nat, id: PageId): Tree
    requires StepOk(s) && mid < |WideSeps(s, sep)|
  {
    Branch(id, WideKids(s, l, r)[mid + 1..], WideSeps(s, sep)[mid + 1..])
  }

  lemma SplitShape(steps: seq<Step>, l: Tree, sep: Pos, r: Tree, top: nat, mid: nat, id: PageId)
    requires HalvesGood(steps, l, sep, r, top) && steps != []
    requires var ws := WideSeps(steps[|steps| - 1], sep);
             1 <= mid && mid + 1 < |ws| && InteriorFits(ws[..mid]) && InteriorFits(ws[mid + 1..])
    ensures var s, up := steps[|steps| - 1], steps[..|steps| - 1];
            HalvesGood(up, LowHalf(s, l, sep, r, mid), WideSeps(s, sep)[mid], HighHalf(s, l, sep, r, mid, id), top)
  {
    hide SepsIn, SepFits, PathGood, PathFull, KidsGood, IsPlace, InteriorFits, LeafOk, WideKids, WideSeps;
    var s, up := steps[|steps| - 1], steps[..|steps| - 1];
    WidthsMatch(s, l, sep, r);
    Widened(steps, l, sep, r, top);
    WideFull(steps, l, sep, r, top);
    SepsSplit(WideSeps(s, sep), HoleLo(up), HoleHi(up), mid);
    KidsSplit(WideKids(s, l, r), WideSeps(s, sep), top - |steps|, HoleLo(up), HoleHi(up), mid);
    FullSplit(WideKids(s, l, r), mid);
  }

  lemma FullSplit(kids: seq<Tree>, mid: nat)
    requires mid < |kids| && (forall i {:trigger kids[i]} :: 0 <= i < |kids| ==> Full(kids[i]))
    ensures forall i {:trigger kids[..mid + 1][i]} :: 0 <= i < mid + 1 ==> Full(kids[..mid + 1][i])
    ensures forall i {:trigger kids[mid + 1..][i]} :: 0 <= i < |kids| - mid - 1 ==> Full(kids[mid + 1..][i])
  {
  }

  lemma SplitIds(pages: Pages, steps: seq<Step>, l: Tree, sep: Pos, r: Tree, mid: nat, id: PageId, pages': Pages)
    requires StepsOk(steps) && steps != [] && HalvesOnce(pages, steps, l, r) && id !in pages
    requires mid < |WideSeps(steps[|steps| - 1], sep)| && pages'.Keys == pages.Keys + {id}
    ensures var s, up := steps[|steps| - 1], steps[..|steps| - 1];
            HalvesOnce(pages', up, LowHalf(s, l, sep, r, mid), HighHalf(s, l, sep, r, mid, id))
  {
    hide OnceAll, IdsOf, PathIds, PathOnce, WideKids, WideSeps;
    var s, up := steps[|steps| - 1], steps[..|steps| - 1];
    WidthsMatch(s, l, sep, r);
    HalvesIds(pages, steps, l, r);
    var wk := WideKids(s, l, r);
    assert wk == wk[..mid + 1] + wk[mid + 1..];
    OnceJoin(wk[..mid + 1], wk[mid + 1..]);
    IdsJoin(wk[..mid + 1], wk[mid + 1..]);
  }

  lemma SplitHeld(pages: Pages, root: PageId, steps: seq<Step>, l: Tree, sep: Pos, r: Tree, mid: nat, id: PageId, pages': Pages)
    requires StepsOk(steps) && steps != [] && HalvesOnce(pages, steps, l, r) && HalvesStored(pages, root, steps, l, r) && id !in pages
    requires mid < |WideSeps(steps[|steps| - 1], sep)| && |WideKids(steps[|steps| - 1], l, r)| == |WideSeps(steps[|steps| - 1], sep)| + 1
    requires var s := steps[|steps| - 1];
             var low, high := LowHalf(s, l, sep, r, mid), HighHalf(s, l, sep, r, mid, id);
             pages' == pages[id := PageFor(KidIds(high.kids), high.seps)][s.node.id := PageFor(KidIds(low.kids), low.seps)]
    ensures var s, up := steps[|steps| - 1], steps[..|steps| - 1];
            HalvesStored(pages', root, up, LowHalf(s, l, sep, r, mid), HighHalf(s, l, sep, r, mid, id))
  {
    hide OnceAll, IdsOf, PathIds, PathOnce, WideKids, WideSeps, LeavesOf, StoredAll, PathStored, LinksOk, KidIds, PageFor, Same;
    var s, up := steps[|steps| - 1], steps[..|steps| - 1];
    var wk := WideKids(s, l, r);
    HalvesIds(pages, steps, l, r);
    SameBut(pages, pages', s.node.id, id);
    HalvesElsewhere(pages, root, steps, l, r, pages');
    assert wk == wk[..mid + 1] + wk[mid + 1..];
    StoredJoin(pages', wk[..mid + 1], wk[mid + 1..]);
    LeavesJoin(wk[..mid + 1], wk[mid + 1..]);
  }

  lemma SameBut(pages: Pages, pages': Pages, a: PageId, id: PageId)
    requires id !in pages && forall p {:trigger pages'[p]} {:trigger p in pages} :: p in pages && p != a ==> p in pages' && pages'[p] == pages[p]
    ensures Same(pages, pages', pages.Keys - {a})
  {
  }

  /** The separator does not fit: the parent splits, and its middle separator goes further up. */
  lemma SplitParent(pages: Pages, root: PageId, steps: seq<Step>, l: Tree, sep: Pos, r: Tree, top: nat, mid: nat, id: PageId, pages': Pages)
    requires Pending(pages, root, steps, l, sep, r, top) && steps != [] && id !in pages
    requires var ws := WideSeps(steps[|steps| - 1], sep);
             && 1 <= mid && mid + 1 < |ws| && InteriorFits(ws[..mid]) && InteriorFits(ws[mid + 1..])
             && |WideKids(steps[|steps| - 1], l, r)| == |ws| + 1
    requires var s := steps[|steps| - 1];
             var low, high := LowHalf(s, l, sep, r, mid), HighHalf(s, l, sep, r, mid, id);
             pages' == pages[id := PageFor(KidIds(high.kids), high.seps)][s.node.id := PageFor(KidIds(low.kids), low.seps)]
    ensures var s, up := steps[|steps| - 1], steps[..|steps| - 1];
            var low, high := LowHalf(s, l, sep, r, mid), HighHalf(s, l, sep, r, mid, id);
            && Pending(pages', root, up, low, WideSeps(s, sep)[mid], high, top)
            && LeftLeaves(up) + (Leaves(low) + Leaves(high)) + RightLeaves(up) == LeftLeaves(steps) + (Leaves(l) + Leaves(r)) + RightLeaves(steps)
  {
    hide HalvesOnce, HalvesStored, LeavesOf, WideKids, WideSeps, InteriorFits, PageFor, KidIds, PathGood;
    var s, up := steps[|steps| - 1], steps[..|steps| - 1];
    HalvesNode(pages, steps, l, r);
    SplitShape(steps, l, sep, r, top, mid, id);
    SplitIds(pages, steps, l, sep, r, mid, id, pages');
    SplitHeld(pages, root, steps, l, sep, r, mid, id, pages');
    var wk := WideKids(s, l, r);
    assert wk == wk[..mid + 1] + wk[mid + 1..];
    LeavesJoin(wk[..mid + 1], wk[mid + 1..]);
    WideLeaves(s, l, r);
    Regroup(LeftLeaves(up), LeavesOf(KidsBefore(s)), Leaves(l) + Leaves(r), LeavesOf(KidsAfter(s)), RightLeaves(up));
  }

  lemma HalvesNode(pages: Pages, steps: seq<Step>, l: Tree, r: Tree)
    requires StepsOk(steps) && steps != [] && HalvesOnce(pages, steps, l, r)
    ensures steps[|steps| - 1].node.id in pages
  {
  }
}
