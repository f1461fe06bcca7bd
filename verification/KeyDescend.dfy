/** The walk from the root to a leaf, and where scans and page walks enter. */
module KeyDescend {
  import opened Bytes
  import opened Sequences
  import opened KeyOrder
  import opened KeyNode
  import opened KeySplit
  import opened KeyShape
  import opened KeyPath
  import opened KeyEntries
  import opened KeyStored
  import opened KeyGrow
  import opened KeyLeaf
  import opened KeyParent
  import opened KeyShrink
  import opened KeyMoves
  import opened KeyCut
  import opened KeyScan
  import opened KeyWalk
  import opened KeyPages

  /** Where a walk starts. */
  datatype Target = First | Last | At(pos: Pos)

  function ChildAt(page: Node, i: nat): PageId
    requires page.Interior? && i <= |page.seps|
  {
    if i == 0 then page.leftmost else page.seps[i - 1].child
  }

  ghost function PathPages(steps: seq<Step>): seq<PageId> { seq(|steps|, i requires 0 <= i < |steps| => steps[i].node.id) }

  /** The path is the one the walk to the target takes. */
  ghost predicate Leads(target: Target, steps: seq<Step>)
    requires StepsOk(steps)
  {
    match target
    case First => LeftLeaves(steps) == []
    case Last => RightLeaves(steps) == []
    case At(p) => Within(HoleLo(steps), HoleHi(steps), p)
  }

  /** Which child of a branch the walk takes. */
  ghost predicate Takes(target: Target, seps: seq<Pos>, i: nat) {
    && i <= |seps|
    && match target
       case First => i == 0
       case Last => i == |seps|
       case At(p) => (forall j {:trigger seps[j]} :: 0 <= j < i ==> !Less(p, seps[j])) && (forall j {:trigger seps[j]} :: i <= j < |seps| ==> Less(p, seps[j]))
  }

  /** The child after the last separator at or below the position. */
  method ChildFor(seps: seq<Pos>, target: Target) returns (i: nat)
    requires Ascending(seps)
    ensures Takes(target, seps, i) && i <= |seps|
  {
    match target {
      case First => i := 0;
      case Last => i := |seps|;
      case At(p) =>
        var found, k := Search(seps, p);
        i := if found then k + 1 else k;
        forall j | 0 <= j < |seps| ensures j < i ==> !Less(p, seps[j]) ensures j >= i ==> Less(p, seps[j]) { Total(p, seps[j]); }
    }
  }

  lemma LeadsOn(target: Target, steps: seq<Step>, s: Step)
    requires StepsOk(steps) && StepOk(s) && Leads(target, steps) && Takes(target, s.node.seps, s.at)
    ensures StepsOk(steps + [s]) && Leads(target, steps + [s])
  {
    var more := steps + [s];
    assert more[..|more| - 1] == steps;
    match target
    case First => assert KidsBefore(s) == [];
    case Last => assert KidsAfter(s) == [];
    case At(p) =>
  }

  lemma {:induction false} PlugOn(steps: seq<Step>, s: Step)
    requires StepsOk(steps) && StepOk(s)
    ensures StepsOk(steps + [s]) && Plug(steps + [s], s.node.kids[s.at]) == Plug(steps, s.node)
  {
    assert (steps + [s])[..|steps|] == steps;
    assert s.node.kids[s.at := s.node.kids[s.at]] == s.node.kids;
  }

  /** What a branch's page says. */
  lemma BranchPage(pages: Pages, t: Tree, level: nat, lo: Edge, hi: Edge, i: nat)
    requires t.Branch? && Stored(pages, t) && Good(t, level, lo, hi) && i <= |t.seps|
    ensures var page := pages[t.id];
            && page.Interior? && SepPositions(page.seps) == t.seps && Ascending(t.seps)
            && |t.kids| == |t.seps| + 1 && ChildAt(page, i) == t.kids[i].id && Stored(pages, t.kids[i])
            && level > 0 && Good(t.kids[i], level - 1, LoOf(t.seps, i, lo), HiOf(t.seps, i, hi))
  {
    StoredKid(pages, t.kids, i);
    assert KidsGood(t.kids, t.seps, level - 1, lo, hi);
    assert t.kids[i] == t.kids[i];
  }

  lemma LeadsNowhere(target: Target)
    ensures StepsOk([]) && Leads(target, [])
  {
  }

  lemma {:induction false} HoleOn(steps: seq<Step>, s: Step)
    requires StepsOk(steps) && StepOk(s)
    ensures StepsOk(steps + [s])
    ensures HoleLo(steps + [s]) == LoOf(s.node.seps, s.at, HoleLo(steps)) && HoleHi(steps + [s]) == HiOf(s.node.seps, s.at, HoleHi(steps))
  {
    assert (steps + [s])[..|steps|] == steps;
  }

  /** One level further down. */
  ghost predicate Reached(pages: Pages, t: Tree, top: nat, target: Target, steps: seq<Step>, x: Tree) {
    && StepsOk(steps) && |steps| <= top && t == Plug(steps, x) && Leads(target, steps)
    && Stored(pages, x) && Good(x, top - |steps|, HoleLo(steps), HoleHi(steps))
  }

  lemma StepDown(pages: Pages, t: Tree, top: nat, target: Target, steps: seq<Step>, x: Tree, i: nat)
    requires Reached(pages, t, top, target, steps, x) && x.Branch? && Takes(target, x.seps, i) && i <= |x.seps|
    ensures |x.kids| == |x.seps| + 1 && x.id in pages && pages[x.id].Interior? && |pages[x.id].seps| == |x.seps|
    ensures ChildAt(pages[x.id], i) == x.kids[i].id && x.kids[i].id in pages
    ensures Reached(pages, t, top, target, steps + [Step(x, i)], x.kids[i])
  {
    hide Leads, Takes, Plug, SepsOk, LeafOk;
    BranchPage(pages, x, top - |steps|, HoleLo(steps), HoleHi(steps), i);
    var s := Step(x, i);
    LeadsOn(target, steps, s);
    PlugOn(steps, s);
    HoleOn(steps, s);
  }

  lemma {:induction false} ReachedPage(pages: Pages, t: Tree, top: nat, target: Target, steps: seq<Step>, x: Tree)
    requires Reached(pages, t, top, target, steps, x)
    ensures x.id in pages && (pages[x.id].Leaf? <==> x.Tip?)
    ensures x.Branch? ==> |steps| < top && SepPositions(pages[x.id].seps) == x.seps && Ascending(x.seps)
    ensures x.Tip? ==> |steps| == top && pages[x.id].entries == x.entries && LeafOk(x.entries, HoleLo(steps), HoleHi(steps))
  {
    hide Leads, Plug, LeafOk;
    if x.Branch? { BranchPage(pages, x, top - |steps|, HoleLo(steps), HoleHi(steps), 0); }
  }

  lemma {:induction false} ReachedSteps(pages: Pages, t: Tree, top: nat, target: Target, steps: seq<Step>, x: Tree)
    requires Reached(pages, t, top, target, steps, x)
    ensures StepsOk(steps) && |steps| <= top && t == Plug(steps, x) && Leads(target, steps)
  {
  }

  lemma Starting(pages: Pages, root: PageId, t: Tree, top: nat, target: Target)
    requires TreeOk(pages, root, t, top)
    ensures Reached(pages, t, top, target, [], t) && root == t.id
  {
    hide LinksOk, Full, Once;
    LeadsNowhere(target);
  }

  /** Where a forward scan enters the tree. */
  function StartAt(start: Start): Target {
    match start
    case FromKey(Unbounded) => First
    case FromKey(lo) => At(Pos(lo.key, 0))
    case AfterPos(q) => At(q)
  }

  lemma {:induction false} EnterForward(pages: Pages, root: PageId, t: Tree, top: nat, start: Start, hi: Bound, steps: seq<Step>, x: Tree)
    requires TreeOk(pages, root, t, top) && StepsOk(steps) && x.Tip? && t == Plug(steps, x) && Leads(StartAt(start), steps)
    ensures var k := |LeftLeaves(steps)|;
            && k < |Leaves(t)| && Leaves(t)[k] == x && FlatIndex(t, k, 0) <= |All(t)|
            && Selected(All(t)[..FlatIndex(t, k, 0)], start, hi) == []
  {
    hide Selected, Leaves, LeavesOf, Plug, Good, Full, Once, Stored, LinksOk, Entries, AllWithin;
    PathLeaf(steps, x);
    var k := |LeftLeaves(steps)|;
    LeafAt(pages, root, t, top, k);
    assert All(t)[..FlatIndex(t, k, 0)] == Entries(LeftLeaves(steps));
    Sides(steps, x, top);
    if start == FromKey(Unbounded) {
      NothingLeft(start, hi);
    } else {
      SkipLeft(Entries(LeftLeaves(steps)), HoleLo(steps), start, hi, StartAt(start).pos);
    }
  }

  lemma {:induction false} NothingLeft(start: Start, hi: Bound)
    ensures Entries([]) == [] && Selected([], start, hi) == []
  {
  }

  lemma {:induction false} FlatNext(t: Tree, k: nat, n: nat)
    requires k <= |Leaves(t)|
    ensures FlatIndex(t, k, n + 1) == FlatIndex(t, k, n) + 1
  {
  }

  lemma {:induction false} EnterBackward(pages: Pages, root: PageId, t: Tree, top: nat, lo: Bound, hi: Bound, steps: seq<Step>, x: Tree)
    requires TreeOk(pages, root, t, top) && StepsOk(steps) && x.Tip? && t == Plug(steps, x)
    requires Leads(if hi.Unbounded? then Last else At(Pos(hi.key, MAX_ROW)), steps)
    ensures var k := |LeftLeaves(steps)|;
            && k < |Leaves(t)| && Leaves(t)[k] == x && FlatIndex(t, k + 1, 0) <= |All(t)|
            && Reversed(Selected(All(t)[FlatIndex(t, k + 1, 0)..], FromKey(lo), hi)) == []
  {
    hide Selected, Leaves, LeavesOf, Plug, Good, Full, Once, Stored, LinksOk, Entries, AllWithin, Reversed;
    PathLeaf(steps, x);
    var k := |LeftLeaves(steps)|;
    LeafAt(pages, root, t, top, k);
    assert All(t)[FlatIndex(t, k + 1, 0)..] == Entries(RightLeaves(steps));
    Sides(steps, x, top);
    NothingLeft(FromKey(lo), hi);
    if !hi.Unbounded? { SkipRight(Entries(RightLeaves(steps)), HoleHi(steps), lo, hi); }
    NothingReversed();
  }

  lemma NothingReversed()
    ensures Reversed([]) == []
  {
  }

  lemma FirstFlat(t: Tree)
    ensures FlatIndex(t, 0, 0) == 0 && All(t)[0..] == All(t)
  {
  }

  lemma StartPages(pages: Pages, root: PageId, t: Tree, top: nat)
    requires TreeOk(pages, root, t, top)
    ensures Listing(t, [], [t]) && Stacked(pages, [(root, 0)], [t], top)
  {
    hide LinksOk, Full, Listing;
    ListingStart(t);
    GoodIsEven(t, top, Lowest, Highest);
  }

  lemma {:induction false} AllNamed(pages: Pages, root: PageId, t: Tree, top: nat)
    requires TreeOk(pages, root, t, top)
    ensures pages.Keys == Ids(t)
  {
  }

  /** The subtree on top of the stack, and the rest. */
  lemma TopOf(pages: Pages, stack: seq<(PageId, nat)>, todo: seq<Tree>, depth: nat) returns (x: Tree, rest: seq<Tree>)
    requires Stacked(pages, stack, todo, depth) && stack != []
    ensures todo == rest + [x] && x.id == stack[|stack| - 1].0 && stack[|stack| - 1].1 <= depth
    ensures Stored(pages, x) && x.id in pages && Even(x, depth - stack[|stack| - 1].1) && Stacked(pages, stack[..|stack| - 1], rest, depth)
  {
    x, rest := todo[|todo| - 1], todo[..|todo| - 1];
  }

  lemma NothingTodo(pages: Pages, stack: seq<(PageId, nat)>, todo: seq<Tree>, depth: nat)
    requires Stacked(pages, stack, todo, depth) && stack == []
    ensures todo == []
  {
  }

  lemma {:induction false} TipAtDepth(x: Tree)
    requires Even(x, 0)
    ensures x.Tip?
  {
  }

  lemma TipsAtDepth(kids: seq<Tree>)
    requires forall i {:trigger kids[i]} :: 0 <= i < |kids| ==> Even(kids[i], 0)
    ensures forall i {:trigger kids[i]} :: 0 <= i < |kids| ==> kids[i].Tip?
  {
  }

  function Tagged(ids: seq<PageId>, level: nat): seq<(PageId, nat)> {
    seq(|ids|, i requires 0 <= i < |ids| => (ids[i], level))
  }

  /** The pages a walk over all pages may read. */
  ghost predicate BranchOrFirst(pages: Pages, t: Tree, p: PageId) {
    p in pages && (pages[p].Interior? || (Leaves(t) != [] && p == Leaves(t)[0].id))
  }

  lemma {:induction false} StackKids(pages: Pages, stack: seq<(PageId, nat)>, rest: seq<Tree>, depth: nat, kids: seq<Tree>, level: nat)
    requires Stacked(pages, stack, rest, depth) && level <= depth
    requires forall i {:trigger kids[i]} :: 0 <= i < |kids| ==> Stored(pages, kids[i]) && Even(kids[i], depth - level)
    ensures Stacked(pages, stack + Tagged(KidIds(kids), level), rest + kids, depth)
  {
    hide Stored, Even;
  }

  lemma TakesFirst(seps: seq<Pos>)
    ensures Takes(First, seps, 0)
  {
  }

  lemma {:induction false} FirstLeaf(pages: Pages, t: Tree, top: nat, steps: seq<Step>, x: Tree)
    requires Reached(pages, t, top, First, steps, x) && x.Tip?
    ensures Leaves(t) != [] && Leaves(t)[0] == x
  {
    hide Good, Stored, Plug;
    PathLeaf(steps, x);
  }

  lemma {:induction false} InOrder(pages: Pages, root: PageId, t: Tree, top: nat)
    requires TreeOk(pages, root, t, top)
    ensures Sorted(All(t)) && pages.Keys == Ids(t)
  {
    hide Stored, LinksOk, Full, Once, Sorted;
    TreeEntries(t, top, Lowest, Highest);
  }
}
