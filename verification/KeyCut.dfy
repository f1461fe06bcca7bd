/** The pages once an emptied leaf, and the ancestors that had no other child, are gone. */
module KeyCut {
  import opened Bytes
  import opened Sequences
  import opened KeyOrder
  import opened KeyNode
  import opened KeyShape
  import opened KeyPath
  import opened KeyStored
  import opened KeyGrow
  import opened KeyLeaf
  import opened KeyParent
  import opened KeyShrink
  import opened KeyMoves

  lemma {:induction false} RootsDiffer(ts: seq<Tree>, i: nat, j: nat)
    requires OnceAll(ts) && i < j < |ts|
    ensures ts[i].id != ts[j].id
    decreases |ts|
  {
    if i == 0 {
      RootIn(ts[1..], j - 1);
    } else {
      RootsDiffer(ts[1..], i - 1, j - 1);
    }
  }

  lemma {:induction false} RootIn(ts: seq<Tree>, i: nat)
    requires i < |ts|
    ensures ts[i].id in IdsOf(ts)
    decreases |ts|
  {
    if i > 0 { RootIn(ts[1..], i - 1); }
  }

  /** A branch names the child on the path once: as its first child, or by one separator. */
  lemma NamedBy(s: Step, y: Tree, j: nat)
    requires StepOk(s) && Once(Kid(s, y)) && j < |s.node.seps|
    ensures var page := PageFor(KidIds(s.node.kids)[s.at := y.id], s.node.seps);
            && (page.leftmost == y.id <==> s.at == 0)
            && (page.seps[j].child == y.id <==> s.at == j + 1)
  {
    var kids := Kid(s, y).kids;
    assert forall i {:trigger kids[i]} :: 0 <= i < |kids| ==> KidIds(s.node.kids)[s.at := y.id][i] == kids[i].id;
    assert kids[s.at] == y;
    if s.at > 0 { RootsDiffer(kids, 0, s.at); }
    if s.at < j + 1 { RootsDiffer(kids, s.at, j + 1); }
    if s.at > j + 1 { RootsDiffer(kids, j + 1, s.at); }
  }

  /** The pages without the leaf and the nodes that go with it. */
  ghost function CutPages(before: Pages, steps: seq<Step>, k: nat, x: PageId, gone: set<PageId>): Pages
    requires StepsOk(steps) && 1 <= k <= |steps| && steps[k - 1].node.seps != [] && |CutNode(steps[k - 1]).kids| == |CutNode(steps[k - 1]).seps| + 1
    requires x in before && before[x].Leaf?
    requires before[x].prev.Some? ==> before[x].prev.value in before && before[before[x].prev.value].Leaf? && before[x].prev.value != steps[k - 1].node.id
    requires before[x].next.Some? ==> before[x].next.value in before && before[before[x].next.value].Leaf? && before[x].next.value != steps[k - 1].node.id
  {
    var cut := CutNode(steps[k - 1]);
    Unlinked(before[x := before[x].(entries := [])][steps[k - 1].node.id := PageFor(KidIds(cut.kids), cut.seps)],
             before[x].prev, before[x].next) - (gone + {x})
  }

  lemma CutWidths(s: Step)
    requires StepOk(s) && s.node.seps != []
    ensures |CutNode(s).kids| == |CutNode(s).seps| + 1
  {
  }

  /** On the way up, everything is where it was. */
  lemma {:induction false} ChainNode(before: Pages, root: PageId, steps: seq<Step>, k: nat, x: Tree, y: Tree, gone: set<PageId>, top: nat)
    requires OnlyChain(steps, k, x, y, gone) && 1 <= k && TreeOk(before, root, Plug(steps, x), top)
    ensures var s := steps[k - 1];
            && StepOk(s) && s.node.id in before && before[s.node.id] == PageFor(KidIds(s.node.kids)[s.at := y.id], s.node.seps)
            && s.node.id != x.id && s.node.id !in gone && Once(Kid(s, y)) && gone + {x.id} <= before.Keys
            && (k == 1 ==> s.node.seps != [])
  {
    hide Good, Full, LinksOk, Leaves, Plug, StoredAll, OnceAll;
    var s, up := steps[k - 1], steps[..k];
    assert up[k - 1] == s && up[..k - 1] == steps[..k - 1];
    PlugStored(before, up, y);
    PlugIds(up, y);
    PlugRoot(up, y);
    PlugUp(up, y);
    PlugIds(up[..k - 1], Kid(s, y));
  }

  lemma PlugUp(steps: seq<Step>, y: Tree)
    requires StepsOk(steps) && steps != []
    ensures Plug(steps, y) == Plug(steps[..|steps| - 1], Kid(steps[|steps| - 1], y))
  {
  }

  lemma CutLinks(before: Pages, root: PageId, steps: seq<Step>, k: nat, x: Tree, y: Tree, gone: set<PageId>, top: nat, pages: Pages)
    requires OnlyChain(steps, k, x, y, gone) && 1 <= k && x.Tip? && TreeOk(before, root, Plug(steps, x), top)
    requires steps[k - 1].node.seps != [] && |CutNode(steps[k - 1]).kids| == |CutNode(steps[k - 1]).seps| + 1
    requires x.id in before && before[x.id].Leaf?
    requires before[x.id].prev.Some? ==> before[x.id].prev.value in before && before[before[x.id].prev.value].Leaf? && before[x.id].prev.value != steps[k - 1].node.id
    requires before[x.id].next.Some? ==> before[x.id].next.value in before && before[before[x.id].next.value].Leaf? && before[x.id].next.value != steps[k - 1].node.id
    requires pages == CutPages(before, steps, k, x.id, gone)
    ensures LinksOk(pages, LeafIds(LeftLeaves(steps)) + LeafIds(RightLeaves(steps)))
    ensures pages.Keys == before.Keys - Ids(y) && SameBody(before, pages, before.Keys - Ids(y) - {steps[k - 1].node.id})
    ensures steps[k - 1].node.id in pages && pages[steps[k - 1].node.id] == PageFor(KidIds(CutNode(steps[k - 1]).kids), CutNode(steps[k - 1]).seps)
  {
    hide Good, Full, LinksOk, Leaves, LeavesOf, Plug, Stored, KidIds, PageFor, CutNode, Once;
    var node := steps[k - 1].node.id;
    var a, b := LeafIds(LeftLeaves(steps)), LeafIds(RightLeaves(steps));
    ChainNode(before, root, steps, k, x, y, gone, top);
    PathLeaves(before, root, steps, x, top);
    NextPage(before, a, x.id, b);
    UnlinkedLinks(before, a, x.id, b);
    var linked := Unlinked(before, before[x.id].prev, before[x.id].next);
    ChainLeaves(before, root, steps, k, x, y, gone, top);
    forall i | 0 <= i < |a + b| && (a + b)[i] in linked && linked[(a + b)[i]].Leaf?
      ensures (a + b)[i] in pages && pages[(a + b)[i]] == linked[(a + b)[i]]
    {
      assert (a + b)[i] !in gone + {x.id} && (a + b)[i] != node;
    }
    LinksKept(linked, pages, a + b);
  }

  /** The other leaves are none of the pages that go, and no branch. */
  lemma ChainLeaves(before: Pages, root: PageId, steps: seq<Step>, k: nat, x: Tree, y: Tree, gone: set<PageId>, top: nat)
    requires OnlyChain(steps, k, x, y, gone) && 1 <= k && x.Tip? && TreeOk(before, root, Plug(steps, x), top)
    ensures var ids := LeafIds(LeftLeaves(steps)) + LeafIds(RightLeaves(steps));
            forall i {:trigger ids[i]} :: 0 <= i < |ids| ==> ids[i] !in gone + {x.id} && ids[i] != steps[k - 1].node.id
  {
    hide Good, Full, LinksOk, Leaves, LeavesOf, Plug, Stored, Once, PathOnce;
    var up := steps[..k];
    assert up[k - 1] == steps[k - 1];
    PlugIds(up, y);
    SideIn(up);
    SideNotNode(up);
    var a, b := LeafIds(LeftLeaves(steps)), LeafIds(RightLeaves(steps));
    forall i | 0 <= i < |a + b| ensures (a + b)[i] in PathIds(up) && (a + b)[i] != steps[k - 1].node.id {
      if i < |a| { assert a[i] == LeftLeaves(up)[i].id; } else { assert b[i - |a|] == RightLeaves(up)[i - |a|].id; }
    }
  }

  lemma {:induction false} SideIn(steps: seq<Step>)
    requires StepsOk(steps)
    ensures forall i {:trigger LeftLeaves(steps)[i]} :: 0 <= i < |LeftLeaves(steps)| ==> LeftLeaves(steps)[i].id in PathIds(steps)
    ensures forall i {:trigger RightLeaves(steps)[i]} :: 0 <= i < |RightLeaves(steps)| ==> RightLeaves(steps)[i].id in PathIds(steps)
    decreases |steps|
  {
    hide LeavesOf, IdsOf;
    if steps != [] {
      var s := steps[|steps| - 1];
      SideIn(steps[..|steps| - 1]);
      LeafIdsInAll(KidsBefore(s));
      LeafIdsInAll(KidsAfter(s));
    }
  }

  lemma {:induction false} SideNotNode(steps: seq<Step>)
    requires StepsOk(steps) && steps != [] && PathOnce(steps)
    ensures forall i {:trigger LeftLeaves(steps)[i]} :: 0 <= i < |LeftLeaves(steps)| ==> LeftLeaves(steps)[i].id != steps[|steps| - 1].node.id
    ensures forall i {:trigger RightLeaves(steps)[i]} :: 0 <= i < |RightLeaves(steps)| ==> RightLeaves(steps)[i].id != steps[|steps| - 1].node.id
  {
    hide LeavesOf, IdsOf, OnceAll;
    var s, up := steps[|steps| - 1], steps[..|steps| - 1];
    SideIn(up);
    LeafIdsInAll(KidsBefore(s));
    LeafIdsInAll(KidsAfter(s));
  }

  /** The neighbours of the leaf are leaves, so no branch above it. */
  lemma {:induction false} CutNeighbours(before: Pages, root: PageId, steps: seq<Step>, k: nat, x: Tree, y: Tree, gone: set<PageId>, top: nat)
    requires OnlyChain(steps, k, x, y, gone) && 1 <= k && x.Tip? && TreeOk(before, root, Plug(steps, x), top)
    ensures x.id in before && before[x.id].Leaf?
    ensures before[x.id].prev.Some? ==> before[x.id].prev.value in before && before[before[x.id].prev.value].Leaf? && before[x.id].prev.value != steps[k - 1].node.id
    ensures before[x.id].next.Some? ==> before[x.id].next.value in before && before[before[x.id].next.value].Leaf? && before[x.id].next.value != steps[k - 1].node.id
  {
    hide TreeOk, Plug, LeavesOf, PageFor, KidIds, OnlyChain;
    ChainSteps(steps, k, x, y, gone);
    NeighbourPages(before, root, steps, x, top);
    ChainNode(before, root, steps, k, x, y, gone, top);
    NodeIsInterior(steps[k - 1], y.id);
  }

  lemma ChainSteps(steps: seq<Step>, k: nat, x: Tree, y: Tree, gone: set<PageId>)
    requires OnlyChain(steps, k, x, y, gone)
    ensures StepsOk(steps) && k <= |steps|
  {
  }

  lemma PageSeps(s: Step, id: PageId)
    requires StepOk(s)
    ensures var page := PageFor(KidIds(s.node.kids)[s.at := id], s.node.seps);
            page.Interior? && |page.seps| == |s.node.seps| && SepPositions(page.seps) == s.node.seps
  {
  }

  lemma NodeIsInterior(s: Step, id: PageId)
    requires StepOk(s)
    ensures PageFor(KidIds(s.node.kids)[s.at := id], s.node.seps).Interior?
  {
  }

  /** The index without the leaf: in order, stored, linked and named once, all but a root that may
      have to give way. */
  lemma CutDone(before: Pages, root: PageId, steps: seq<Step>, k: nat, x: Tree, y: Tree, gone: set<PageId>, top: nat, pages: Pages)
    requires OnlyChain(steps, k, x, y, gone) && 1 <= k && x.Tip? && TreeOk(before, root, Plug(steps, x), top)
    requires steps[k - 1].node.seps != [] && |CutNode(steps[k - 1]).kids| == |CutNode(steps[k - 1]).seps| + 1
    requires x.id in before && before[x.id].Leaf?
    requires before[x.id].prev.Some? ==> before[x.id].prev.value in before && before[before[x.id].prev.value].Leaf? && before[x.id].prev.value != steps[k - 1].node.id
    requires before[x.id].next.Some? ==> before[x.id].next.value in before && before[before[x.id].next.value].Leaf? && before[x.id].next.value != steps[k - 1].node.id
    requires pages == CutPages(before, steps, k, x.id, gone)
    ensures var t := Plug(steps[..k - 1], CutNode(steps[k - 1]));
            && Loose(t, top) && NamedOnce(pages, t) && Kept(pages, root, t)
            && Leaves(t) == LeftLeaves(steps) + RightLeaves(steps)
  {
    hide Loose, ShapeOk, NamedOnce, Kept, CutPages, CutNode, KidIds, PageFor, Leaves, Ids, SameBody;
    var up := steps[..k];
    assert up[k - 1] == steps[k - 1] && up[..k - 1] == steps[..k - 1];
    CutLinks(before, root, steps, k, x, y, gone, top, pages);
    CutShape(up, y, top);
    CutKept(before, root, up, y, top, x.id, pages, LeafIds(LeftLeaves(up)), LeafIds(RightLeaves(up)));
  }

  lemma RootPage(pages: Pages, root: PageId, t: Tree, top: nat)
    requires Loose(t, top) && NamedOnce(pages, t) && Kept(pages, root, t)
    ensures root in pages && (pages[root].Leaf? <==> t.Tip?)
    ensures t.Branch? ==> |pages[root].seps| == |t.seps|
  {
    hide LinksOk, Good, Full, StoredAll;
  }
}
