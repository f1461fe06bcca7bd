/** A B+tree over pages, ordered by key bytes and row id: the page form of a secondary index. */
module KeyTree {
  import opened Bytes
  import opened Distinctness
  import opened Sequences
  import opened KeyOrder
  import opened KeyNode
  import opened KeySplit
  import opened KeyShape
  import opened KeyPath
  import opened KeyEntries
  import opened KeyStored
  import opened KeyGrow
  import opened KeyLeaf
  import opened KeyParent
  import opened KeyShrink
  import opened KeyMoves
  import opened KeyCut
  import opened KeyScan
  import opened KeyWalk
  import opened KeyPages
  import opened KeyDescend
  import opened KeyDepth

  /** The deepest tree a walk accepts. */
  const MAX_DEPTH := 64

  datatype Status = Done | TooLarge | TooDeep

  /** Operations on an index, and what they answer. */
  datatype Op = PutOp(pos: Pos, value: seq<byte>) | DeleteOp(pos: Pos) | GetOp(pos: Pos)

  datatype Answer = Accepted | Refused | Deleted(was: bool) | Found(value: Option<seq<byte>>) | Deep

  /** What an ordered map becomes: an entry too large is refused. */
  function After(op: Op, before: Table): Table {
    match op
    case PutOp(p, v) => if 2 + |p.key| + 8 + 2 + |v| <= 2000 then before[p := v] else before
    case DeleteOp(p) => before - {p}
    case GetOp(p) => before
  }

  /** What an ordered map answers. */
  function Reply(op: Op, before: Table): Answer {
    match op
    case PutOp(p, v) => if 2 + |p.key| + 8 + 2 + |v| <= 2000 then Accepted else Refused
    case DeleteOp(p) => Deleted(p in before)
    case GetOp(p) => Found(if p in before then Some(before[p]) else None)
  }

  /** What an ordered map becomes and answers over a run, except where the tree answered that it is
      too deep to walk: those operations change nothing. */
  ghost function AfterAll(ops: seq<Op>, rs: seq<Answer>, before: Table): Table
    requires |rs| == |ops|
    decreases |ops|
  {
    if ops == [] then before
    else
      var n := |ops| - 1;
      var t := AfterAll(ops[..n], rs[..n], before);
      if rs[n] == Deep then t else After(ops[n], t)
  }

  ghost predicate AnswersAll(ops: seq<Op>, rs: seq<Answer>, before: Table)
    requires |rs| == |ops|
    decreases |ops|
  {
    ops != [] ==>
      var n := |ops| - 1;
      AnswersAll(ops[..n], rs[..n], before) && rs[n] in {Deep, Reply(ops[n], AfterAll(ops[..n], rs[..n], before))}
  }

  /** A run on an ordered map. */
  ghost function MapRun(ops: seq<Op>, before: Table): (Table, seq<Answer>)
    decreases |ops|
  {
    if ops == [] then (before, [])
    else
      var n := |ops| - 1;
      var run := MapRun(ops[..n], before);
      (After(ops[n], run.0), run.1 + [Reply(ops[n], run.0)])
  }

  /** With no walk refused, the run is one on an ordered map. */
  lemma {:induction false} NeverDeep(ops: seq<Op>, rs: seq<Answer>, before: Table)
    requires |rs| == |ops| && AnswersAll(ops, rs, before) && Deep !in rs
    ensures (AfterAll(ops, rs, before), rs) == MapRun(ops, before)
    decreases |ops|
  {
    if ops != [] {
      var n := |ops| - 1;
      assert rs == rs[..n] + [rs[n]];
      NeverDeep(ops[..n], rs[..n], before);
    }
  }

  class KeyTree {
    var pages: Pages
    var root: PageId
    var free: set<PageId>
    var next: PageId
    ghost var tree: Tree
    ghost var top: nat
    /** How many puts the tree has taken. */
    ghost var puts: nat

    /** Live pages and recycled ids are disjoint and below the next new id. */
    ghost predicate StoreOk()
      reads this
    {
      && (forall p {:trigger p in pages} :: p in pages ==> p < next)
      && (forall p {:trigger p in free} :: p in free ==> p < next && p !in pages)
    }

    ghost predicate Valid()
      reads this
    {
      StoreOk() && TreeOk(pages, root, tree, top) && Paid(tree, top, puts)
    }

    /** The ordered map the index stands for. */
    ghost function Table(): Table
      reads this
    {
      ToMap(All(tree))
    }

    constructor ()
      ensures Valid() && Table() == map[] && puts == 0
    {
      pages, root, free, next := map[0 := Leaf(None, None, [])], 0, {}, 1;
      tree, top, puts := Tip(0, []), 0, 0;
      new;
      assert LeafOk([], Lowest, Highest) by { assert EntrySizes([]) == []; }
      assert LeafIds([tree]) == [0];
      assert LinkOk(pages, [0], 0);
      TipEntries(tree);
    }

    method AllocatePage() returns (id: PageId)
      requires StoreOk()
      modifies `free, `next
      ensures id !in pages && id !in free && id < next && StoreOk()
    {
      if free != {} {
        id :| id in free;
        free := free - {id};
      } else {
        id, next := next, next + 1;
      }
    }

    /** Walk to the leaf for a target, noting the branches passed. A tree too deep to be valid is
        refused. */
    method Descend(target: Target) returns (ok: bool, path: seq<PageId>, leaf: PageId, ghost steps: seq<Step>, ghost x: Tree)
      requires Valid()
      ensures ok <==> top <= MAX_DEPTH
      ensures ok ==>
                && StepsOk(steps) && |steps| == top && tree == Plug(steps, x) && Leads(target, steps)
                && x.Tip? && x.id == leaf && path == PathPages(steps)
                && leaf in pages && pages[leaf].Leaf? && pages[leaf].entries == x.entries
                && LeafOk(x.entries, HoleLo(steps), HoleHi(steps))
    {
      hide TreeOk, Reached, LeafOk, Leads, Takes, Plug, HoleLo, HoleHi;
      path, leaf, steps, x := [], root, [], tree;
      Starting(pages, root, tree, top, target);
      ReachedPage(pages, tree, top, target, steps, x);
      while pages[leaf].Interior?
        invariant Reached(pages, tree, top, target, steps, x) && leaf == x.id && path == PathPages(steps)
        invariant leaf in pages && |path| <= MAX_DEPTH && |steps| <= top
        decreases top - |steps|
      {
        var page := pages[leaf];
        ReachedPage(pages, tree, top, target, steps, x);
        var i := ChildFor(SepPositions(page.seps), target);
        StepDown(pages, tree, top, target, steps, x, i);
        path := path + [leaf];
        leaf := ChildAt(page, i);
        steps, x := steps + [Step(x, i)], x.kids[i];
        if |path| > MAX_DEPTH {
          ok := false;
          return;
        }
      }
      ReachedPage(pages, tree, top, target, steps, x);
      ReachedSteps(pages, tree, top, target, steps, x);
      ok := true;
    }

    /** The value under a position. */
    method Get(p: Pos) returns (ok: bool, value: Option<seq<byte>>)
      requires Valid()
      ensures ok <==> top <= MAX_DEPTH
      ensures ok ==> value == if p in Table() then Some(Table()[p]) else None
    {
      hide TreeOk, IsPlace, ToMap, LeafOk, HoleLo, HoleHi;
      var path, leaf;
      ghost var steps, x;
      value := None;
      ok, path, leaf, steps, x := Descend(At(p));
      if ok {
        LeafSorted(x.entries, HoleLo(steps), HoleHi(steps));
        var es := pages[leaf].entries;
        var found, i := Search(Positions(es), p);
        FoundInAll(steps, x, pages, root, top, p, i);
        if found { value := Some(es[i].value); }
      }
    }

    /** Store a value under a position, replacing what is there. */
    method Put(p: Pos, value: seq<byte>) returns (st: Status)
      requires Valid()
      modifies this
      ensures Valid()
      ensures st == TooLarge <==> 2 + |p.key| + 8 + 2 + |value| > 2000
      ensures st == TooDeep <==> 2 + |p.key| + 8 + 2 + |value| <= 2000 && old(top) > 64
      ensures st != Done ==> tree == old(tree) && pages == old(pages) && root == old(root) && top == old(top) && puts == old(puts)
      ensures st == Done ==> Table() == old(Table())[p := value] && puts == old(puts) + 1
    {
      hide TreeOk, IsPlace, ToMap, LeafOk, HoleLo, HoleHi, LeafFits, All, Plug, Paid;
      var e := Entry(p, value);
      if !Fits(e) { return TooLarge; }
      var ok, path, leaf;
      ghost var steps, x;
      ok, path, leaf, steps, x := Descend(At(p));
      if !ok { return TooDeep; }
      LeafSorted(x.entries, HoleLo(steps), HoleHi(steps));
      var es := pages[leaf].entries;
      var found, i := Search(Positions(es), p);
      var out := PutAt(es, i, e);
      PutLeaf(steps, x, pages, root, top, e, i);
      if LeafFits(out) {
        RewriteKeeps(pages, root, steps, x, top, out);
        PutWhole(steps, x, x.(entries := out), pages, root, top, e, i);
        LeafRewritten(steps, x, x.(entries := out), top, puts);
        puts := puts + 1;
        pages := pages[leaf := pages[leaf].(entries := out)];
        tree := Plug(steps, x.(entries := out));
      } else {
        ghost var mid, id := SplitLeaf(path, leaf, out, steps, x, i, e);
        PutSplit(steps, x, tree, old(pages), old(root), old(top), e, i, mid, id);
      }
      st := Done;
    }

    /** Split an overfull leaf in two and push the new separator up the path. */
    method SplitLeaf(path: seq<PageId>, leaf: PageId, out: seq<Entry>, ghost steps: seq<Step>, ghost x: Tree, ghost i: nat, ghost e: Entry)
      returns (ghost cut: nat, ghost id: PageId)
      requires Valid() && StepsOk(steps) && |steps| == top && tree == Plug(steps, x) && x.Tip? && x.id == leaf && path == PathPages(steps)
      requires leaf in pages && pages[leaf].Leaf? && pages[leaf].entries == x.entries
      requires LeafFits(x.entries) && i <= |x.entries| && out == PutAt(x.entries, i, e) && !LeafFits(out) && Fits(e)
      requires Sorted(out) && (forall k {:trigger x.entries[k]} :: 0 <= k < |x.entries| ==> Fits(x.entries[k]))
      requires forall k {:trigger out[k]} :: 0 <= k < |out| ==> Fits(out[k]) && Within(HoleLo(steps), HoleHi(steps), out[k].pos)
      modifies this
      ensures Valid() && puts == old(puts) + 1
      ensures cut <= |out|
      ensures Leaves(tree) == LeftLeaves(steps) + ([Tip(leaf, out[..cut])] + [Tip(id, out[cut..])]) + RightLeaves(steps)
    {
      hide TreeOk, Pending, LeafFits, Sorted, HoleLo, HoleHi, Plug, LeafIds, Sum, Paid, Owed;
      var sizes := EntrySizes(out);
      PutFits(x.entries, i, e);
      OverLeaf(out);
      var mid := SplitPoint(sizes);
      LeafHalvesFit(x.entries, i, e, mid);
      var right := AllocatePage();
      cut, id := mid, right;
      NeighbourPages(pages, root, steps, x, top);
      SplitLeafPending(pages, root, steps, x, top, out, mid, id);
      pages := SplitPages(pages, leaf, right, out[..mid], out[mid..]);
      LeafSplit(steps, x, Tip(leaf, out[..mid]), Tip(id, out[mid..]), top, puts);
      puts := puts + 1;
      InsertSeparator(path, leaf, out[mid].pos, right, steps, Tip(leaf, out[..mid]), Tip(id, out[mid..]));
    }

    /** Place a separator, for the node split off to the right of `left`, in the parent at the end
        of the path, splitting upward as needed; a split root gets a new root above it. */
    method InsertSeparator(path: seq<PageId>, left: PageId, sep: Pos, right: PageId, ghost steps: seq<Step>, ghost l: Tree, ghost r: Tree)
      requires StoreOk() && Pending(pages, root, steps, l, sep, r, top)
      requires StepsOk(steps) && path == PathPages(steps) && left == l.id && right == r.id
      requires |steps| <= top && Owed(steps, l, r, top, puts)
      modifies this
      ensures Valid() && puts == old(puts)
      ensures Leaves(tree) == LeftLeaves(steps) + (Leaves(l) + Leaves(r)) + RightLeaves(steps)
      decreases |path|, 1
    {
      hide TreeOk, HalvesGood, HalvesOnce, HalvesStored, InteriorFits, Sum, Leaves, LeafIds, Plug, Paid, Owed;
      SepIsSmall(pages, root, steps, l, sep, r, top);
      if path == [] {
        var id := AllocatePage();
        NewRoot(pages, root, l, sep, r, top, id);
        RootGrows(l, sep, r, top, puts, id);
        pages := pages[id := Interior(left, [Sep(sep, right)])];
        root := id;
        tree, top := Branch(id, [l, r], [sep]), top + 1;
        return;
      }
      var parent := path[|path| - 1];
      ghost var s, up := steps[|steps| - 1], steps[..|steps| - 1];
      ParentPage(pages, root, steps, l, sep, r, top);
      var page := pages[parent];
      var found, i := Search(SepPositions(page.seps), sep);
      SamePlace(s.node.seps, sep, i, s.at);
      var seps := InsertAt(page.seps, i, Sep(sep, right));
      assert SepPositions(seps) == WideSeps(s, sep);
      WidthsMatch(s, l, sep, r);
      WidePage(s, l, sep, r);
      if InteriorFits(SepPositions(seps)) {
        PlaceSeparator(pages, root, steps, l, sep, r, top);
        SeparatorPlaced(steps, l, sep, r, top, puts);
        pages := pages[parent := page.(seps := seps)];
        tree := Plug(up, WideNode(s, l, sep, r));
        return;
      }
      SplitInterior(path, page, seps, sep, steps, l, r);
    }

    /** Split an overfull branch: the middle separator moves up, and its child leads the right half. */
    method SplitInterior(path: seq<PageId>, page: Node, seps: seq<Sep>, ghost sep: Pos, ghost steps: seq<Step>, ghost l: Tree, ghost r: Tree)
      requires StoreOk() && Pending(pages, root, steps, l, sep, r, top)
      requires StepsOk(steps) && path == PathPages(steps) && steps != []
      requires |steps| <= top && Owed(steps, l, r, top, puts)
      requires var s := steps[|steps| - 1];
               && SepPositions(seps) == WideSeps(s, sep) && !InteriorFits(SepPositions(seps))
               && page.Interior? && |WideKids(s, l, r)| == |WideSeps(s, sep)| + 1
               && page.(seps := seps) == PageFor(KidIds(WideKids(s, l, r)), WideSeps(s, sep))
      modifies this
      ensures Valid() && puts == old(puts)
      ensures Leaves(tree) == LeftLeaves(steps) + (Leaves(l) + Leaves(r)) + RightLeaves(steps)
      decreases |path|, 0
    {
      hide TreeOk, Pending, InteriorFits, Sum, Leaves, LeafIds, WideKids, WideSeps, Paid, Owed;
      var parent := path[|path| - 1];
      ghost var s, up := steps[|steps| - 1], steps[..|steps| - 1];
      ParentOver(pages, root, steps, l, sep, r, top);
      var mid := SplitPoint(SepSizes(SepPositions(seps)));
      ParentHalvesFit(s.node.seps, WideSeps(s, sep), mid);
      var id := AllocatePage();
      ghost var low, high := LowHalf(s, l, sep, r, mid), HighHalf(s, l, sep, r, mid, id);
      var promoted := seps[mid];
      HalfPages(s, l, sep, r, mid, id);
      ghost var pages' := pages[id := PageFor(KidIds(high.kids), high.seps)][s.node.id := PageFor(KidIds(low.kids), low.seps)];
      SplitParent(pages, root, steps, l, sep, r, top, mid, id, pages');
      SepIsSmall(pages, root, steps, l, sep, r, top);
      BranchSplits(steps, l, sep, r, top, puts, mid, id);
      ParentLive(pages, root, steps, l, sep, r, top);
      pages := pages[id := Interior(promoted.child, seps[mid + 1..])];
      pages := pages[parent := Interior(page.leftmost, seps[..mid])];
      InsertSeparator(path[..|path| - 1], parent, promoted.pos, id, up, low, high);
    }

    /** Remove a position; whether it was there. */
    method Delete(p: Pos) returns (st: Status, found: bool)
      requires Valid()
      modifies this
      ensures Valid()
      ensures st == TooDeep <==> old(top) > MAX_DEPTH
      ensures st in {Done, TooDeep} && (found <==> st == Done && old(p in Table()))
      ensures !found ==> tree == old(tree) && pages == old(pages) && root == old(root) && top == old(top)
      ensures st == Done ==> Table() == old(Table()) - {p}
      ensures puts == old(puts)
    {
      hide TreeOk, IsPlace, ToMap, LeafOk, HoleLo, HoleHi, LeafFits, All, Plug, Paid;
      var ok, path, leaf, i;
      ghost var steps, x;
      found := false;
      ok, path, leaf, steps, x := Descend(At(p));
      if !ok { return TooDeep, false; }
      LeafSorted(x.entries, HoleLo(steps), HoleHi(steps));
      var es := pages[leaf].entries;
      found, i := Search(Positions(es), p);
      FoundInAll(steps, x, pages, root, top, p, i);
      st := Done;
      if found {
        var page := pages[leaf];
        var out := RemoveAt(es, i);
        if out != [] || path == [] {
          RemoveLeaf(es, HoleLo(steps), HoleHi(steps), i);
          RewriteKeeps(pages, root, steps, x, top, out);
          RemoveWhole(steps, x, pages, root, top, i);
          LeafRewritten(steps, x, x.(entries := out), top, puts);
          pages := pages[leaf := page.(entries := out)];
          tree := Plug(steps, x.(entries := out));
        } else {
          pages := pages[leaf := page.(entries := [])];
          RemoveEmptyLeaf(path, leaf, page.prev, page.next, steps, x, old(pages));
          RemoveLast(steps, x, old(pages), old(root), old(top), tree);
        }
      }
    }

    /** Take an emptied leaf out of the tree, with every ancestor left with no other child. */
    method RemoveEmptyLeaf(path: seq<PageId>, leaf: PageId, prev: Option<PageId>, next: Option<PageId>,
                           ghost steps: seq<Step>, ghost x: Tree, ghost before: Pages)
      requires StoreOk() && TreeOk(before, root, tree, top)
      requires StepsOk(steps) && steps != [] && tree == Plug(steps, x) && x.Tip? && x.id == leaf && path == PathPages(steps)
      requires leaf in before && before[leaf].Leaf? && before[leaf].prev == prev && before[leaf].next == next
      requires pages == before[leaf := before[leaf].(entries := [])]
      requires |steps| <= top && Paid(tree, top, puts)
      modifies this
      ensures Valid() && Leaves(tree) == LeftLeaves(steps) + RightLeaves(steps) && puts == old(puts)
    {
      hide TreeOk, OnlyChain, LeafIds, Plug, CutNode, PageFor, KidIds, Leaves, Paid;
      var k, child, chain := |path|, leaf, {};
      ghost var y := x;
      ChainStart(steps, x);
      while true
        invariant 1 <= k <= |path| && OnlyChain(steps, k, x, y, chain) && child == y.id
        modifies {}
        decreases k
      {
        ChainNode(before, root, steps, k, x, y, chain, top);
        PageSeps(steps[k - 1], y.id);
        if pages[path[k - 1]].seps != [] { break; }
        ChainUp(steps, k, x, y, chain);
        chain := chain + {path[k - 1]};
        y := Kid(steps[k - 1], y);
        child := path[k - 1];
        k := k - 1;
      }
      CutAt(path, k, leaf, child, chain, prev, next, steps, x, y, before);
      CollapseRoot();
    }

    /** An interior page without one of its children. */
    method DropChild(page: Node, child: PageId, ghost s: Step, ghost y: Tree) returns (cut: Node)
      requires StepOk(s) && s.node.seps != [] && Once(Kid(s, y)) && child == y.id
      requires page == PageFor(KidIds(s.node.kids)[s.at := child], s.node.seps)
      ensures |CutNode(s).kids| == |CutNode(s).seps| + 1 && cut == PageFor(KidIds(CutNode(s).kids), CutNode(s).seps)
    {
      hide PageFor, KidIds, CutNode, Once;
      PageSeps(s, child);
      CutWidths(s);
      CutPage(s, child);
      NamedBy(s, y, 0);
      if page.leftmost == child {
        return Interior(page.seps[0].child, page.seps[1..]);
      }
      var at := 0;
      while page.seps[at].child != child
        invariant at < s.at
        decreases s.at - at
      {
        NamedBy(s, y, at);
        at := at + 1;
      }
      NamedBy(s, y, at);
      cut := page.(seps := page.seps[..at] + page.seps[at + 1..]);
    }

    /** The ancestor's page loses the child, the leaf's neighbours link to each other, and the leaf
        and the chain above it are given back. */
    method CutAt(path: seq<PageId>, k: nat, leaf: PageId, child: PageId, chain: set<PageId>, prev: Option<PageId>, next: Option<PageId>,
                 ghost steps: seq<Step>, ghost x: Tree, ghost y: Tree, ghost before: Pages)
      requires StoreOk() && TreeOk(before, root, tree, top)
      requires StepsOk(steps) && tree == Plug(steps, x) && x.Tip? && x.id == leaf && path == PathPages(steps)
      requires OnlyChain(steps, k, x, y, chain) && 1 <= k <= |steps| && child == y.id && steps[k - 1].node.seps != []
      requires leaf in before && before[leaf].Leaf? && before[leaf].prev == prev && before[leaf].next == next
      requires pages == before[leaf := before[leaf].(entries := [])]
      requires |steps| <= top && Paid(tree, top, puts)
      modifies `pages, `free, `tree
      ensures StoreOk() && Loose(tree, top) && NamedOnce(pages, tree) && Kept(pages, root, tree) && Paid(tree, top, puts)
      ensures Leaves(tree) == LeftLeaves(steps) + RightLeaves(steps)
    {
      hide TreeOk, OnlyChain, LeafIds, Plug, CutNode, PageFor, KidIds, Leaves, Loose, NamedOnce, Kept, Once, Paid;
      var id := path[k - 1];
      ghost var s := steps[k - 1];
      ChainNode(before, root, steps, k, x, y, chain, top);
      CutWidths(s);
      CutNeighbours(before, root, steps, k, x, y, chain, top);
      var page := DropChild(pages[id], child, s, y);
      pages := pages[id := page];
      pages := Unlinked(pages, prev, next);
      CutDone(before, root, steps, k, x, y, chain, top, CutPages(before, steps, k, leaf, chain));
      pages := pages - (chain + {leaf});
      free := free + chain + {leaf};
      forall p | p in free ensures p < this.next && p !in pages {
        assert p in old(free) || p in old(pages);
      }
      CutPaid(steps, k, x, y, chain, top, puts);
      tree := Plug(steps[..k - 1], CutNode(s));
    }

    /** A root with a single child gives way to it, as many levels as that holds. */
    method CollapseRoot()
      requires StoreOk() && Loose(tree, top) && NamedOnce(pages, tree) && Kept(pages, root, tree) && Paid(tree, top, puts)
      modifies this
      ensures Valid() && Leaves(tree) == old(Leaves(tree)) && puts == old(puts)
    {
      hide Leaves, Good, Full, Once, Ids, LinksOk, Paid;
      while true
        invariant StoreOk() && Loose(tree, top) && NamedOnce(pages, tree) && Kept(pages, root, tree)
        invariant Leaves(tree) == old(Leaves(tree)) && Paid(tree, top, puts) && puts == old(puts)
        decreases top
      {
        RootPage(pages, root, tree, top);
        var page := pages[root];
        if page.Leaf? || page.seps != [] { break; }
        Collapse(pages, root, tree, top);
        CollapsePaid(tree, top, puts);
        var was := root;
        root := page.leftmost;
        pages := pages - {was};
        free := free + {was};
        tree, top := tree.kids[0], top - 1;
      }
    }

    // Scans --------------------------------------------------------------------------------------

    /** Scan in ascending order until the visitor has had enough: `done` says whether it saw the whole
        range. */
    method Forward(start: Start, hi: Bound) returns (ok: bool, out: seq<Entry>, done: bool)
      requires Valid()
      ensures ok <==> top <= MAX_DEPTH
      ensures ok ==> Delivers(Table(), start, hi, out, done)
      ensures ok ==> out <= Selected(All(tree), start, hi) && (done ==> out == Selected(All(tree), start, hi))
      ensures ok && !done ==> out != []
    {
      hide TreeOk, Selected, All, Delivers;
      ok, out, done := WalkForward(start, hi);
      InOrder(pages, root, tree, top);
      if ok { PrefixDelivers(All(tree), start, hi, out, done); }
    }

    /** Scan in descending order. */
    method Backward(lo: Bound, hi: Bound) returns (ok: bool, out: seq<Entry>, done: bool)
      requires Valid()
      ensures ok <==> top <= MAX_DEPTH
      ensures ok ==> DeliversBack(Table(), lo, hi, out, done)
      ensures ok && !done ==> out != []
    {
      hide TreeOk, Selected, All, Reversed, DeliversBack;
      ok, out, done := WalkBackward(lo, hi);
      InOrder(pages, root, tree, top);
      if ok { PrefixDeliversBack(All(tree), lo, hi, out, done); }
    }

    /** Deliver entries along the leaves, from the start to the upper bound. */
    method WalkForward(start: Start, hi: Bound) returns (ok: bool, out: seq<Entry>, done: bool)
      requires Valid()
      ensures ok <==> top <= MAX_DEPTH
      ensures ok ==> out <= Selected(All(tree), start, hi) && (done ==> out == Selected(All(tree), start, hi))
      ensures ok && !done ==> out != []
    {
      hide Sorted, TreeOk, Selected, Skips, AboveHi, Plug, All, LeafOk, HoleLo, HoleHi, FlatIndex, Leaves, Leads;
      var path, leaf;
      ghost var steps, x;
      out, done := [], false;
      ok, path, leaf, steps, x := Descend(StartAt(start));
      if !ok { return; }
      ghost var k: nat, all := |LeftLeaves(steps)|, All(tree);
      EnterForward(pages, root, tree, top, start, hi, steps, x);
      InOrder(pages, root, tree, top);
      while true
        invariant k < |Leaves(tree)| && leaf == Leaves(tree)[k].id
        invariant FlatIndex(tree, k, 0) <= |all| && out == Selected(all[..FlatIndex(tree, k, 0)], start, hi)
        decreases |Leaves(tree)| - k
      {
        LeafHere(pages, root, tree, top, k);
        var es, n := pages[leaf].entries, 0;
        while n < |es|
          invariant n <= |es| && FlatIndex(tree, k, n) <= |all| && out == Selected(all[..FlatIndex(tree, k, n)], start, hi)
        {
          var e := es[n];
          EntryAt(pages, root, tree, top, k, n);
          EntryAt(pages, root, tree, top, k, n + 1);
          FlatNext(tree, k, n);
          SelectedNext(all, FlatIndex(tree, k, n), start, hi);
          n := n + 1;
          if Skips(start, e.pos) { continue; }
          if AboveHi(hi, e.pos.key) {
            SelectedDone(all, FlatIndex(tree, k, n - 1), start, hi);
            done := true;
            return;
          }
          out := out + [e];
          var more: bool := *;
          if !more { return; }
        }
        EntryAt(pages, root, tree, top, k, n);
        var next := pages[leaf].next;
        if next.None? {
          SelectedAll(all, start, hi);
          done := true;
          return;
        }
        leaf := next.value;
        k := k + 1;
      }
    }

    /** Deliver entries against the links of the leaves, from the upper bound to the lower. */
    method WalkBackward(lo: Bound, hi: Bound) returns (ok: bool, out: seq<Entry>, done: bool)
      requires Valid()
      ensures ok <==> top <= MAX_DEPTH
      ensures var full := Reversed(Selected(All(tree), FromKey(lo), hi));
              ok ==> out <= full && (done ==> out == full)
      ensures ok && !done ==> out != []
    {
      hide Sorted, TreeOk, Selected, Reversed, BelowLo, AboveHi, Plug, All, LeafOk, HoleLo, HoleHi, FlatIndex, Leaves, Leads;
      var path, leaf;
      ghost var steps, x;
      out, done := [], false;
      ok, path, leaf, steps, x := Descend(if hi.Unbounded? then Last else At(Pos(hi.key, MAX_ROW)));
      if !ok { return; }
      ghost var k: nat, all, start := |LeftLeaves(steps)|, All(tree), FromKey(lo);
      EnterBackward(pages, root, tree, top, lo, hi, steps, x);
      InOrder(pages, root, tree, top);
      while true
        invariant k < |Leaves(tree)| && leaf == Leaves(tree)[k].id
        invariant FlatIndex(tree, k + 1, 0) <= |all| && out == Reversed(Selected(all[FlatIndex(tree, k + 1, 0)..], start, hi))
        decreases k
      {
        LeafHere(pages, root, tree, top, k);
        var es := pages[leaf].entries;
        var n: nat := |es|;
        EntryAt(pages, root, tree, top, k, n);
        while n > 0
          invariant n <= |es| && FlatIndex(tree, k, n) <= |all| && out == Reversed(Selected(all[FlatIndex(tree, k, n)..], start, hi))
        {
          n := n - 1;
          var e := es[n];
          EntryAt(pages, root, tree, top, k, n);
          FlatNext(tree, k, n);
          ReversedNext(all, FlatIndex(tree, k, n), start, hi);
          if AboveHi(hi, e.pos.key) { continue; }
          if BelowLo(lo, e.pos.key) {
            ReversedDone(all, FlatIndex(tree, k, n), lo, hi);
            done := true;
            return;
          }
          out := out + [e];
          var more: bool := *;
          if !more { return; }
        }
        var prev := pages[leaf].prev;
        if prev.None? {
          FirstFlat(tree);
          done := true;
          return;
        }
        leaf := prev.value;
        k := k - 1;
      }
    }

    /** Every page of the tree, each once. Only the branches and one leaf are read. */
    method Pages() returns (out: seq<PageId>, ghost loaded: set<PageId>)
      requires Valid()
      ensures SetOf(out) == pages.Keys && Distinct(out)
      ensures forall p {:trigger p in loaded} :: p in loaded ==> BranchOrFirst(pages, tree, p)
    {
      hide TreeOk, Leaves, Listing, Stacked, Stored, Even;
      var depth;
      depth, loaded := LeafLevel();
      var stack := [(root, 0)];
      ghost var todo := [tree];
      out := [];
      StartPages(pages, root, tree, top);
      while stack != []
        invariant Listing(tree, out, todo) && Stacked(pages, stack, todo, depth)
        invariant forall p {:trigger p in loaded} :: p in loaded ==> BranchOrFirst(pages, tree, p)
        decreases IdsOf(todo)
      {
        var (id, level) := stack[|stack| - 1];
        ghost var x, rest := TopOf(pages, stack, todo, depth);
        stack := stack[..|stack| - 1];
        ListRoot(tree, out, rest, x);
        out := out + [id];
        if level == depth {
          TipAtDepth(x);
          assert rest + [] == rest;
          todo := rest;
        } else {
          ChildrenAre(pages, x, depth - level);
          loaded := loaded + {id};
          var children := ChildrenOf(pages[id]);
          if level + 1 == depth {
            TipsAtDepth(x.kids);
            ListLeaves(tree, out, rest, x.kids);
            out := out + children;
            todo := rest;
          } else {
            StackKids(pages, stack, rest, depth, x.kids, level + 1);
            stack := stack + Tagged(children, level + 1);
            todo := rest + x.kids;
          }
        }
      }
      NothingTodo(pages, stack, todo, depth);
      ListingEnd(tree, out);
      AllNamed(pages, root, tree, top);
    }

    /** How many levels lie above the leaves, read off the leftmost path. */
    method LeafLevel() returns (level: nat, ghost loaded: set<PageId>)
      requires Valid()
      ensures level == top
      ensures forall p {:trigger p in loaded} :: p in loaded ==> BranchOrFirst(pages, tree, p)
    {
      hide TreeOk, Reached, Leaves, Takes;
      var id := root;
      ghost var steps, x := [], tree;
      level, loaded := 0, {};
      Starting(pages, root, tree, top, First);
      ReachedPage(pages, tree, top, First, steps, x);
      while pages[id].Interior?
        invariant Reached(pages, tree, top, First, steps, x) && id == x.id && level == |steps| <= top && id in pages
        invariant forall p {:trigger p in loaded} :: p in loaded ==> BranchOrFirst(pages, tree, p)
        decreases top - |steps|
      {
        ReachedPage(pages, tree, top, First, steps, x);
        TakesFirst(x.seps);
        StepDown(pages, tree, top, First, steps, x, 0);
        loaded := loaded + {id};
        id := pages[id].leftmost;
        steps, x := steps + [Step(x, 0)], x.kids[0];
        level := level + 1;
      }
      ReachedPage(pages, tree, top, First, steps, x);
      FirstLeaf(pages, tree, top, steps, x);
      loaded := loaded + {id};
    }

    /** Any run of puts, deletes and lookups answers as one ordered map does, but for operations
        refused because the tree is too deep to walk; and for as long as the tree has seen fewer
        puts than a few thousand million million, none is. */
    method Run(ops: seq<Op>) returns (rs: seq<Answer>)
      requires Valid()
      modifies this
      ensures Valid() && |rs| == |ops| && AnswersAll(ops, rs, old(Table())) && Table() == AfterAll(ops, rs, old(Table()))
      ensures old(puts) + |ops| < FEASIBLE_PUTS ==> (Table(), rs) == MapRun(ops, old(Table()))
      ensures Sorted(All(tree)) && pages.Keys == Ids(tree)
    {
      hide TreeOk, ToMap, All, Paid, MapRun;
      rs := [];
      for i := 0 to |ops|
        invariant Valid() && |rs| == i && AnswersAll(ops[..i], rs, old(Table())) && Table() == AfterAll(ops[..i], rs, old(Table()))
        invariant puts <= old(puts) + i && (old(puts) + |ops| < FEASIBLE_PUTS ==> Deep !in rs)
      {
        var r := Do(ops[i]);
        assert ops[..i + 1][..i] == ops[..i] && (rs + [r])[..i] == rs;
        rs := rs + [r];
      }
      assert ops[..|ops|] == ops;
      if old(puts) + |ops| < FEASIBLE_PUTS { NeverDeep(ops, rs, old(Table())); }
      InOrder(pages, root, tree, top);
    }

    /** One operation; it is refused for depth only by a tree deeper than a walk accepts, which has
        seen more puts than any index will. */
    method Do(op: Op) returns (r: Answer)
      requires Valid()
      modifies this
      ensures Valid() && r in {Deep, Reply(op, old(Table()))}
      ensures Table() == if r == Deep then old(Table()) else After(op, old(Table()))
      ensures r == Deep <==> old(top) > MAX_DEPTH && (op.PutOp? ==> 2 + |op.pos.key| + 8 + 2 + |op.value| <= 2000)
      ensures r == Deep ==> old(puts) >= FEASIBLE_PUTS
      ensures old(puts) <= puts <= old(puts) + 1
    {
      hide TreeOk, ToMap, All, Paid;
      if top > MAX_DEPTH { DeepIsDear(tree, top, puts); }
      match op {
        case PutOp(p, v) =>
          var st := Put(p, v);
          r := match st case Done => Accepted case TooLarge => Refused case TooDeep => Deep;
        case DeleteOp(p) =>
          var st, was := Delete(p);
          r := if st == TooDeep then Deep else Deleted(was);
        case GetOp(p) =>
          var ok, v := Get(p);
          r := if ok then Found(v) else Deep;
      }
    }
  }
}
