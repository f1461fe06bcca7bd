/** Taking an emptied leaf out of the index, with every ancestor that had no other child. */
module KeyShrink {
  import opened Bytes
  import opened Distinctness
  import opened Sequences
  import opened KeyOrder
  import opened KeyNode
  import opened KeySplit
  import opened KeyShape
  import opened KeyPath
  import opened KeyEntries
  import opened KeyStored
  import opened KeyGrow
  import opened KeyLeaf
  import opened KeyParent

  // The parent without one child -----------------------------------------------------------------

  /** The child's separator goes with it; the first child has none, so the next child's goes. */
  function CutSeps<T>(seps: seq<T>, at: nat): seq<T>
    requires seps != [] && at <= |seps|
  {
    if at == 0 then seps[1..] else seps[..at - 1] + seps[at..]
  }

  ghost function CutNode(s: Step): Tree
    requires StepOk(s) && s.node.seps != []
  {
    Branch(s.node.id, KidsBefore(s) + KidsAfter(s), CutSeps(s.node.seps, s.at))
  }

  lemma CutSepsIn(seps: seq<Pos>, at: nat, lo: Edge, hi: Edge)
    requires SepsOk(seps, lo, hi) && seps != [] && at <= |seps|
    ensures SepsOk(CutSeps(seps, at), lo, hi)
  {
    hide SepsIn, InteriorFits;
    var gone := if at == 0 then 0 else at - 1;
    assert CutSeps(seps, at) == seps[..gone] + seps[gone + 1..];
    CutSum(seps, gone);
    FewerSeps(seps, gone, lo, hi);
  }

  lemma FewerSeps(seps: seq<Pos>, gone: nat, lo: Edge, hi: Edge)
    requires SepsIn(seps, lo, hi) && gone < |seps|
    ensures SepsIn(seps[..gone] + seps[gone + 1..], lo, hi)
  {
    hide Less, Within;
    var cs := seps[..gone] + seps[gone + 1..];
    forall i | 0 <= i < |cs| ensures |cs[i].key| + 12 <= MAX_ENTRY_BYTES && Within(lo, hi, cs[i]) {
      assert cs[i] == seps[if i < gone then i else i + 1];
    }
    forall i, j | 0 <= i < j < |cs| ensures Less(cs[i], cs[j]) {
      assert cs[i] == seps[if i < gone then i else i + 1] && cs[j] == seps[if j < gone then j else j + 1];
    }
  }

  lemma CutSum(seps: seq<Pos>, gone: nat)
    requires gone < |seps| && InteriorFits(seps)
    ensures InteriorFits(seps[..gone] + seps[gone + 1..])
  {
    hide Sum;
    var a, b := SepSizes(seps[..gone]), SepSizes(seps[gone + 1..]);
    assert SepSizes(seps[..gone] + seps[gone + 1..]) == a + b;
    assert SepSizes(seps) == a + [SepSize(seps[gone])] + b;
    SumJoin(a, b);
    SumJoin(a + [SepSize(seps[gone])], b);
    SumJoin(a, [SepSize(seps[gone])]);
  }

  lemma {:induction false} CutKidsGood(s: Step, level: nat, lo: Edge, hi: Edge)
    requires StepOk(s) && s.node.seps != [] && OthersGood(s, level, lo, hi) && SepsOk(s.node.seps, lo, hi)
    ensures KidsGood(CutNode(s).kids, CutNode(s).seps, level, lo, hi)
  {
    hide Good;
    var kids, seps, at := s.node.kids, s.node.seps, s.at;
    var ck, cs := CutNode(s).kids, CutNode(s).seps;
    forall i | 0 <= i < |ck| ensures Good(ck[i], level, LoOf(cs, i, lo), HiOf(cs, i, hi)) {
      var j := if i < at then i else i + 1;
      assert ck[i] == kids[j];
      CutRange(seps, at, i, lo, hi);
      GoodWiden(kids[j], level, LoOf(seps, j, lo), HiOf(seps, j, hi), LoOf(cs, i, lo), HiOf(cs, i, hi));
    }
  }

  lemma CutRange(seps: seq<Pos>, at: nat, i: nat, lo: Edge, hi: Edge)
    requires SepsIn(seps, lo, hi) && seps != [] && at <= |seps| && i < |seps|
    ensures var cs, j := CutSeps(seps, at), if i < at then i else i + 1;
            EdgeLe(LoOf(cs, i, lo), LoOf(seps, j, lo)) && EdgeLe(HiOf(seps, j, hi), HiOf(cs, i, hi))
  {
    var cs, j := CutSeps(seps, at), if i < at then i else i + 1;
    EdgeSelf(LoOf(seps, j, lo));
    EdgeSelf(HiOf(seps, j, hi));
    if at == 0 {
      assert i > 0 ==> LoOf(cs, i, lo) == LoOf(seps, j, lo);
      assert i == 0 ==> Within(lo, hi, seps[0]);
    } else if i == at - 1 {
      assert LoOf(cs, i, lo) == LoOf(seps, j, lo);
      if at < |seps| { assert Less(seps[at - 1], seps[at]); Total(seps[at - 1], seps[at]); }
      else { assert Within(lo, hi, seps[at - 1]); if hi.Mark? { Total(seps[at - 1], hi.pos); } }
    } else if i < at {
      assert LoOf(cs, i, lo) == LoOf(seps, j, lo) && HiOf(cs, i, hi) == HiOf(seps, j, hi);
    } else {
      assert LoOf(cs, i, lo) == LoOf(seps, j, lo) && HiOf(cs, i, hi) == HiOf(seps, j, hi);
    }
  }

  /** On the page: the separator that names the child goes, or the first child makes way for the
      next one. */
  lemma CutPage(s: Step, id: PageId)
    requires StepOk(s) && s.node.seps != []
    ensures var page := PageFor(KidIds(s.node.kids)[s.at := id], s.node.seps);
            PageFor(KidIds(CutNode(s).kids), CutNode(s).seps)
            == if s.at == 0 then Interior(page.seps[0].child, page.seps[1..])
               else page.(seps := page.seps[..s.at - 1] + page.seps[s.at..])
  {
    var ids := KidIds(s.node.kids)[s.at := id];
    var page, cut := PageFor(ids, s.node.seps), CutNode(s);
    assert KidIds(cut.kids) == ids[..s.at] + ids[s.at + 1..];
    var a := PageFor(KidIds(cut.kids), cut.seps).seps;
    if s.at == 0 {
      assert a == page.seps[1..];
    } else {
      assert a == page.seps[..s.at - 1] + page.seps[s.at..];
    }
  }

  lemma {:induction false} CutFull(steps: seq<Step>, y: Tree)
    requires StepsOk(steps) && steps != [] && Full(Plug(steps, y)) && steps[|steps| - 1].node.seps != []
    ensures PathFull(steps[..|steps| - 1]) && Full(CutNode(steps[|steps| - 1]))
  {
    var n := |steps| - 1;
    var s, up := steps[n], steps[..n];
    PlugFull(steps, y);
    assert forall k {:trigger up[k]} :: 0 <= k < n ==> up[k] == steps[k];
    var ck := CutNode(s).kids;
    forall i | 0 <= i < |ck| ensures Full(ck[i]) {
      var j := if i < s.at then i else i + 1;
      assert ck[i] == steps[n].node.kids[j];
    }
  }

  /** What a tree may be before its root is collapsed. */
  ghost predicate Loose(t: Tree, top: nat) {
    Good(t, top, Lowest, Highest) && (t.Branch? ==> Full(t))
  }

  lemma CutShape(steps: seq<Step>, y: Tree, top: nat)
    requires StepsOk(steps) && steps != [] && ShapeOk(Plug(steps, y), top) && steps[|steps| - 1].node.seps != []
    ensures Loose(Plug(steps[..|steps| - 1], CutNode(steps[|steps| - 1])), top)
  {
    hide SepsOk, KidsGood, OthersGood, PathFull, Plug;
    var s, up := steps[|steps| - 1], steps[..|steps| - 1];
    PlugRoot(steps, y);
    PlugGood(steps, y, top);
    CutSepsIn(s.node.seps, s.at, HoleLo(up), HoleHi(up));
    CutKidsGood(s, top - |steps|, HoleLo(up), HoleHi(up));
    CutFull(steps, y);
    PlugGood(up, CutNode(s), top);
    PlugFull(up, CutNode(s));
  }

  // The leaf out of its neighbours' links --------------------------------------------------------

  function Unlinked(pages: Pages, prev: Option<PageId>, next: Option<PageId>): Pages
    requires prev.Some? ==> prev.value in pages && pages[prev.value].Leaf?
    requires next.Some? ==> next.value in pages && pages[next.value].Leaf?
  {
    var one := if prev.Some? then pages[prev.value := pages[prev.value].(next := next)] else pages;
    if next.Some? then one[next.value := one[next.value].(prev := prev)] else one
  }

  lemma UnlinkedLinks(pages: Pages, a: seq<PageId>, x: PageId, b: seq<PageId>)
    requires LinksOk(pages, a + [x] + b) && Distinct(a + [x] + b)
    requires a != [] ==> a[|a| - 1] in pages && pages[a[|a| - 1]].Leaf?
    requires b != [] ==> b[0] in pages && pages[b[0]].Leaf?
    ensures var prev, next := if a == [] then None else Some(a[|a| - 1]), if b == [] then None else Some(b[0]);
            LinksOk(Unlinked(pages, prev, next), a + b)
  {
    var prev, next := if a == [] then None else Some(a[|a| - 1]), if b == [] then None else Some(b[0]);
    var ids, ids', pages' := a + [x] + b, a + b, Unlinked(pages, prev, next);
    forall k: nat | k < |ids'| ensures LinkOk(pages', ids', k) {
      var j := if k < |a| then k else k + 1;
      assert LinkOk(pages, ids, j) && ids'[k] == ids[j];
      assert b != [] ==> ids[|a| + 1] == b[0];
      assert a != [] ==> ids[|a| - 1] == a[|a| - 1];
      assert b != [] && j != |a| + 1 ==> ids[j] != ids[|a| + 1];
      assert a != [] && j != |a| - 1 ==> ids[j] != ids[|a| - 1];
    }
  }

  /** Everything of the index but the leaf `x`, the nodes above it that go with it, and the parent
      that loses a child is as it was, but for the leaf's neighbours' links. */
  lemma CutKept(pages: Pages, root: PageId, steps: seq<Step>, y: Tree, top: nat, x: PageId, pages': Pages, a: seq<PageId>, b: seq<PageId>)
    requires StepsOk(steps) && steps != [] && TreeOk(pages, root, Plug(steps, y), top) && steps[|steps| - 1].node.seps != []
    requires a == LeafIds(LeftLeaves(steps)) && b == LeafIds(RightLeaves(steps))
    requires var s, cut := steps[|steps| - 1], CutNode(steps[|steps| - 1]);
             && s.node.id in pages'
             && pages'[s.node.id] == PageFor(KidIds(cut.kids), cut.seps)
             && pages'.Keys == pages.Keys - Ids(y)
             && SameBody(pages, pages', pages.Keys - Ids(y) - {s.node.id})
    requires LinksOk(pages', a + b)
    ensures var t := Plug(steps[..|steps| - 1], CutNode(steps[|steps| - 1]));
            NamedOnce(pages', t) && Kept(pages', root, t) && Leaves(t) == LeftLeaves(steps) + RightLeaves(steps)
  {
    hide Good, Full, LinksOk, LeavesOf, Plug, PageFor, KidIds, IdsOf, OnceAll, StoredAll;
    var s, up, cut := steps[|steps| - 1], steps[..|steps| - 1], CutNode(steps[|steps| - 1]);
    var t := Plug(up, cut);
    PlugIds(steps, y);
    PlugStored(pages, steps, y);
    CutIds(s);
    PlugIds(up, cut);
    BodySome(pages, pages', pages.Keys - Ids(y) - {s.node.id}, PathIds(up));
    PathFrame(pages, pages', up, s.node.id);
    BodySome(pages, pages', pages.Keys - Ids(y) - {s.node.id}, IdsOf(KidsBefore(s)));
    BodySome(pages, pages', pages.Keys - Ids(y) - {s.node.id}, IdsOf(KidsAfter(s)));
    StoredAllFrame(pages, pages', KidsBefore(s));
    StoredAllFrame(pages, pages', KidsAfter(s));
    StoredJoin(pages', KidsBefore(s), KidsAfter(s));
    PlugStored(pages', up, cut);
    PlugRoot(steps, y);
    PlugRoot(up, cut);
    CutLeaves(steps);
    LeafIdsJoin(LeftLeaves(steps), RightLeaves(steps));
  }

  lemma LeafIdsJoin(a: seq<Tree>, b: seq<Tree>)
    ensures LeafIds(a + b) == LeafIds(a) + LeafIds(b)
  {
  }

  lemma BodySome(pages: Pages, pages': Pages, more: set<PageId>, ids: set<PageId>)
    requires SameBody(pages, pages', more) && ids <= more
    ensures SameBody(pages, pages', ids)
  {
    forall p | p in ids && p in pages
      ensures p in pages' && (pages'[p] == pages[p] || (pages[p].Leaf? && pages'[p].Leaf? && pages'[p].entries == pages[p].entries))
    {
      assert p in more;
    }
  }

  lemma CutIds(s: Step)
    requires StepOk(s) && s.node.seps != []
    ensures IdsOf(CutNode(s).kids) == IdsOf(KidsBefore(s)) + IdsOf(KidsAfter(s))
    ensures OnceAll(CutNode(s).kids) <==>
              OnceAll(KidsBefore(s)) && OnceAll(KidsAfter(s)) && IdsOf(KidsBefore(s)) !! IdsOf(KidsAfter(s))
  {
    IdsJoin(KidsBefore(s), KidsAfter(s));
    OnceJoin(KidsBefore(s), KidsAfter(s));
  }

  lemma {:induction false} CutLeaves(steps: seq<Step>)
    requires StepsOk(steps) && steps != [] && steps[|steps| - 1].node.seps != []
    ensures Leaves(Plug(steps[..|steps| - 1], CutNode(steps[|steps| - 1]))) == LeftLeaves(steps) + RightLeaves(steps)
  {
    hide LeavesOf, Plug;
    var s, up := steps[|steps| - 1], steps[..|steps| - 1];
    PlugLeaves(up, CutNode(s));
    LeavesJoin(KidsBefore(s), KidsAfter(s));
    Regroup(LeftLeaves(up), LeavesOf(KidsBefore(s)), [], LeavesOf(KidsAfter(s)), RightLeaves(up));
  }

  // The nodes that go with the leaf --------------------------------------------------------------

  /** A branch on the path with no separator has no child but the one the path takes. */
  lemma {:induction false} OnlyKid(s: Step, y: Tree)
    requires StepOk(s) && s.node.seps == []
    ensures Ids(Kid(s, y)) == {s.node.id} + Ids(y)
    ensures KidsBefore(s) == [] && KidsAfter(s) == []
  {
    KidSplits(s, y);
    KidsIds(KidsBefore(s), y, KidsAfter(s));
  }

  // The root gives way to its only child ---------------------------------------------------------

  lemma {:induction false} Collapse(pages: Pages, root: PageId, t: Tree, top: nat)
    requires Loose(t, top) && NamedOnce(pages, t) && Kept(pages, root, t) && t.Branch? && t.seps == []
    ensures |t.kids| == 1 && top > 0 && root in pages && pages[root] == Interior(t.kids[0].id, [])
    ensures var kid := t.kids[0];
            && Loose(kid, top - 1) && NamedOnce(pages - {root}, kid) && Kept(pages - {root}, kid.id, kid)
            && Leaves(kid) == Leaves(t)
  {
    hide LinksOk;
    var kid, pages' := t.kids[0], pages - {root};
    assert t.kids == [kid];
    SingleTree(kid);
    StoredOne(pages, kid);
    assert PageFor(KidIds([kid]), []) == Interior(kid.id, []);
    StoredFrame(pages, pages', kid);
    var ids := LeafIds(Leaves(t));
    LeafIdsIn(kid);
    assert forall k {:trigger ids[k]} :: 0 <= k < |ids| ==> ids[k] == Leaves(kid)[k].id;
    LinksKept(pages, pages', ids);
    assert KidsGood(t.kids, t.seps, top - 1, Lowest, Highest);
    assert Good(kid, top - 1, LoOf(t.seps, 0, Lowest), HiOf(t.seps, 0, Highest));
  }
}
