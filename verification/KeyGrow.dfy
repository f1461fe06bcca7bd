/** Putting an entry: a leaf rewritten or split, a separator placed in the parent or pushed further
    up, a new root. */
module KeyGrow {
  import opened Bytes
  import opened Sequences
  import opened KeyOrder
  import opened KeyNode
  import opened KeySplit
  import opened KeyShape
  import opened KeyPath
  import opened KeyEntries
  import opened KeyStored

  ghost function LeafIds(leaves: seq<Tree>): seq<PageId> { KidIds(leaves) }

  /** The pages hold exactly the index `t`: every page named once and none besides, all leaves at
      one depth and linked in order, none empty but a sole one, and a root with a choice. */
  ghost predicate TreeOk(pages: Pages, root: PageId, t: Tree, top: nat) {
    ShapeOk(t, top) && NamedOnce(pages, t) && Kept(pages, root, t)
  }

  ghost predicate ShapeOk(t: Tree, top: nat) {
    Good(t, top, Lowest, Highest) && (t.Branch? ==> Full(t) && t.seps != [])
  }

  ghost predicate NamedOnce(pages: Pages, t: Tree) { pages.Keys == Ids(t) && Once(t) }

  ghost predicate Kept(pages: Pages, root: PageId, t: Tree) {
    root == t.id && Stored(pages, t) && LinksOk(pages, LeafIds(Leaves(t)))
  }

  // Rewriting a leaf -----------------------------------------------------------------------------

  lemma LinksKept(pages: Pages, pages': Pages, ids: seq<PageId>)
    requires LinksOk(pages, ids)
    requires forall k {:trigger ids[k]} :: 0 <= k < |ids| && ids[k] in pages && pages[ids[k]].Leaf? ==>
               && ids[k] in pages' && pages'[ids[k]].Leaf?
               && pages'[ids[k]].prev == pages[ids[k]].prev && pages'[ids[k]].next == pages[ids[k]].next
    ensures LinksOk(pages', ids)
  {
    forall k: nat | k < |ids| ensures LinkOk(pages', ids, k) { assert LinkOk(pages, ids, k); }
  }

  lemma {:induction false} SameLeafIds(steps: seq<Step>, x: Tree, x': Tree)
    requires StepsOk(steps) && x.Tip? && x'.Tip? && x'.id == x.id
    ensures LeafIds(Leaves(Plug(steps, x'))) == LeafIds(Leaves(Plug(steps, x)))
  {
    hide LeavesOf;
    PlugLeaves(steps, x);
    PlugLeaves(steps, x');
  }

  lemma RewriteStored(pages: Pages, steps: seq<Step>, x: Tree, es: seq<Entry>)
    requires StepsOk(steps) && x.Tip? && Stored(pages, Plug(steps, x)) && Once(Plug(steps, x))
    requires x.id in pages && pages[x.id].Leaf?
    ensures Stored(pages[x.id := pages[x.id].(entries := es)], Plug(steps, x.(entries := es)))
  {
    hide Once;
    var x', pages' := x.(entries := es), pages[x.id := pages[x.id].(entries := es)];
    PlugIds(steps, x);
    PlugStored(pages, steps, x);
    PathFrame(pages, pages', steps, x.id);
    PlugStored(pages', steps, x');
  }

  /** Another subtree at the end of the path, as good as the one there. */
  lemma {:induction false} SwapGood(steps: seq<Step>, x: Tree, x': Tree, top: nat)
    requires StepsOk(steps) && Good(Plug(steps, x), top, Lowest, Highest)
    requires |steps| <= top ==> Good(x', top - |steps|, HoleLo(steps), HoleHi(steps))
    ensures Good(Plug(steps, x'), top, Lowest, Highest)
  {
    hide Good, PathGood, Plug;
    PlugGood(steps, x, top);
    PlugGood(steps, x', top);
  }

  lemma {:induction false} SwapOnce(steps: seq<Step>, x: Tree, x': Tree)
    requires StepsOk(steps) && Once(Plug(steps, x)) && Once(x') && Ids(x') == Ids(x)
    ensures Once(Plug(steps, x')) && Ids(Plug(steps, x')) == Ids(Plug(steps, x))
  {
    hide Once, Ids, PathOnce, Plug;
    PlugIds(steps, x);
    PlugIds(steps, x');
  }

  lemma {:induction false} SwapRoot(steps: seq<Step>, x: Tree, x': Tree)
    requires StepsOk(steps) && steps != [] && Full(Plug(steps, x)) && Plug(steps, x).Branch? && Plug(steps, x).seps != [] && Full(x')
    ensures Full(Plug(steps, x')) && Plug(steps, x').Branch? && Plug(steps, x').seps != [] && Plug(steps, x').id == Plug(steps, x).id
  {
    hide Full, Plug, PathFull;
    PlugFull(steps, x);
    PlugFull(steps, x');
    PlugRoot(steps, x);
    PlugRoot(steps, x');
  }

  /** Other entries in one leaf. */
  lemma {:induction false} RewriteKeeps(pages: Pages, root: PageId, steps: seq<Step>, x: Tree, top: nat, es: seq<Entry>)
    requires StepsOk(steps) && |steps| == top && x.Tip? && TreeOk(pages, root, Plug(steps, x), top)
    requires x.id in pages && pages[x.id].Leaf?
    requires LeafOk(es, HoleLo(steps), HoleHi(steps)) && (steps != [] ==> es != [])
    ensures TreeOk(pages[x.id := pages[x.id].(entries := es)], root, Plug(steps, x.(entries := es)), top)
  {
    hide LeafOk, Stored, LeavesOf, HoleLo, HoleHi, LinksOk, KidIds, PathGood, KidsGood;
    var x', pages' := x.(entries := es), pages[x.id := pages[x.id].(entries := es)];
    SwapGood(steps, x, x', top);
    SwapOnce(steps, x, x');
    RewriteStored(pages, steps, x, es);
    SameLeafIds(steps, x, x');
    LinksKept(pages, pages', LeafIds(Leaves(Plug(steps, x))));
    if steps != [] { PlugRoot(steps, x); SwapRoot(steps, x, x'); }
    assert pages'.Keys == pages.Keys;
  }

  lemma {:induction false} PlugRoot(steps: seq<Step>, x: Tree)
    requires StepsOk(steps)
    ensures steps == [] ==> Plug(steps, x) == x
    ensures steps != [] ==>
              Plug(steps, x).Branch? && Plug(steps, x).id == steps[0].node.id && Plug(steps, x).seps == steps[0].node.seps
    decreases |steps|
  {
    if steps != [] {
      PlugRoot(steps[..|steps| - 1], Kid(steps[|steps| - 1], x));
    }
  }

  // A node split, its separator not yet placed ---------------------------------------------------

  /** The separator lies inside the range, and strictly after its start. */
  ghost predicate SepFits(sep: Pos, lo: Edge, hi: Edge) {
    |sep.key| + 12 <= MAX_ENTRY_BYTES && Within(lo, hi, sep) && (lo.Mark? ==> Less(lo.pos, sep))
  }

  /** At the end of the path, `l` stands for everything below `sep`, and `r` for the rest. */
  ghost predicate HalvesGood(steps: seq<Step>, l: Tree, sep: Pos, r: Tree, top: nat) {
    && StepsOk(steps) && |steps| <= top && PathGood(steps, top)
    && SepFits(sep, HoleLo(steps), HoleHi(steps))
    && Good(l, top - |steps|, HoleLo(steps), Mark(sep)) && Good(r, top - |steps|, Mark(sep), HoleHi(steps))
    && PathFull(steps) && Full(l) && Full(r)
    && (steps != [] ==> steps[0].node.seps != [])
  }

  ghost predicate HalvesOnce(pages: Pages, steps: seq<Step>, l: Tree, r: Tree)
    requires StepsOk(steps)
  {
    && PathOnce(steps) && Once(l) && Once(r)
    && Ids(l) !! Ids(r) && Ids(l) + Ids(r) !! PathIds(steps)
    && pages.Keys == PathIds(steps) + Ids(l) + Ids(r)
  }

  ghost predicate HalvesStored(pages: Pages, root: PageId, steps: seq<Step>, l: Tree, r: Tree)
    requires StepsOk(steps)
  {
    && PathStored(pages, steps, l.id) && Stored(pages, l) && Stored(pages, r)
    && root == (if steps == [] then l.id else steps[0].node.id)
    && LinksOk(pages, LeafIds(LeftLeaves(steps) + (Leaves(l) + Leaves(r)) + RightLeaves(steps)))
  }

  ghost predicate Pending(pages: Pages, root: PageId, steps: seq<Step>, l: Tree, sep: Pos, r: Tree, top: nat) {
    HalvesGood(steps, l, sep, r, top) && HalvesOnce(pages, steps, l, r) && HalvesStored(pages, root, steps, l, r)
  }

  lemma OneSep(sep: Pos, lo: Edge, hi: Edge)
    requires SepFits(sep, lo, hi)
    ensures SepsOk([sep], lo, hi)
  {
    assert SepSizes([sep]) == [SepSize(sep)];
    SumOne(SepSize(sep));
  }

  lemma {:induction false} TwoTrees(l: Tree, r: Tree)
    ensures LeavesOf([l, r]) == Leaves(l) + Leaves(r) && IdsOf([l, r]) == Ids(l) + Ids(r)
    ensures OnceAll([l, r]) <==> Once(l) && Once(r) && Ids(l) !! Ids(r)
  {
    assert [l, r] == [l] + [r];
    LeavesJoin([l], [r]);
    IdsJoin([l], [r]);
    OnceJoin([l], [r]);
    SingleTree(l);
    SingleTree(r);
  }

  lemma NewRootShape(l: Tree, sep: Pos, r: Tree, top: nat, id: PageId)
    requires HalvesGood([], l, sep, r, top)
    ensures ShapeOk(Branch(id, [l, r], [sep]), top + 1)
  {
    hide SepsOk, LeafOk;
    OneSep(sep, Lowest, Highest);
    var t := Branch(id, [l, r], [sep]);
    assert KidsGood(t.kids, t.seps, top, Lowest, Highest) by {
      assert LoOf(t.seps, 1, Lowest) == Mark(sep) && HiOf(t.seps, 0, Highest) == Mark(sep);
    }
  }

  lemma NewRootKept(pages: Pages, root: PageId, l: Tree, sep: Pos, r: Tree, id: PageId)
    requires HalvesOnce(pages, [], l, r) && HalvesStored(pages, root, [], l, r) && id !in pages
    ensures var t, pages' := Branch(id, [l, r], [sep]), pages[id := Interior(l.id, [Sep(sep, r.id)])];
            Kept(pages', id, t) && NamedOnce(pages', t)
  {
    hide LinksOk, LeavesOf;
    var t, pages' := Branch(id, [l, r], [sep]), pages[id := Interior(l.id, [Sep(sep, r.id)])];
    TwoTrees(l, r);
    StoredFrame(pages, pages', l);
    StoredFrame(pages, pages', r);
    StoredJoin(pages', [l], [r]);
    StoredOne(pages', l);
    StoredOne(pages', r);
    assert [l, r] == [l] + [r];
    assert PageFor(KidIds([l, r]), [sep]) == Interior(l.id, [Sep(sep, r.id)]);
    var leaves := Leaves(l) + Leaves(r);
    assert LeftLeaves([]) + leaves + RightLeaves([]) == leaves;
    LinksKept(pages, pages', LeafIds(leaves));
    assert pages'.Keys == Ids(t);
  }

  /** A split root gets a new root above it. */
  lemma {:induction false} NewRoot(pages: Pages, root: PageId, l: Tree, sep: Pos, r: Tree, top: nat, id: PageId)
    requires Pending(pages, root, [], l, sep, r, top) && id !in pages
    ensures var t := Branch(id, [l, r], [sep]);
            && TreeOk(pages[id := Interior(l.id, [Sep(sep, r.id)])], id, t, top + 1)
            && Leaves(t) == Leaves(l) + Leaves(r)
  {
    hide ShapeOk, NamedOnce, Kept, HalvesGood, HalvesOnce, HalvesStored, LeavesOf;
    NewRootShape(l, sep, r, top, id);
    NewRootKept(pages, root, l, sep, r, id);
    TwoTrees(l, r);
  }
}
