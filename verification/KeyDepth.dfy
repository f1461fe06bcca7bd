/** How many puts it takes to make an index deep. Every byte of separators a branch holds above a
    low mark counts as saved towards its next split. A split leaves both halves near the mark, and
    what they give up pays for the separator pushed up, at nearly twice the price per level. */
module KeyDepth {
  import opened Bytes
  import opened Sequences
  import opened KeyOrder
  import opened KeyNode
  import opened KeySplit
  import opened KeyShape
  import opened KeyPath
  import opened KeyStored
  import opened KeyGrow
  import opened KeyParent
  import opened KeyShrink
  import opened KeyMoves

  /** The most a separator adds to a branch, and what a branch may hold without saving. */
  const SEP_BYTES := 2008
  const LOW_MARK := 4500

  ghost function Filled(seps: seq<Pos>): nat { Sum(SepSizes(seps)) + 2 * |seps| }

  ghost function Above(n: nat): nat { if n > LOW_MARK then n - LOW_MARK else 0 }

  /** What one byte saved at a level is worth. */
  ghost function Price(level: nat): (r: real)
    ensures r >= 1.0
  {
    if level <= 1 then 1.0 else 1.75 * Price(level - 1)
  }

  ghost function Saved(t: Tree, level: nat): (r: real)
    ensures r >= 0.0
    decreases t
  {
    match t
    case Tip(_, _) => 0.0
    case Branch(_, kids, seps) => Worth(seps, level) + SavedAll(kids, Below(level))
  }

  ghost function SavedAll(ts: seq<Tree>, level: nat): (r: real)
    ensures r >= 0.0
    decreases ts
  {
    if ts == [] then 0.0 else Saved(ts[0], level) + SavedAll(ts[1..], level)
  }

  ghost function Worth(seps: seq<Pos>, level: nat): (r: real)
    ensures r >= 0.0
  {
    Price(level) * Above(Filled(seps)) as real
  }

  ghost function Below(level: nat): nat { if level == 0 then 0 else level - 1 }

  lemma {:induction false} SavedJoin(a: seq<Tree>, b: seq<Tree>, level: nat)
    ensures SavedAll(a + b, level) == SavedAll(a, level) + SavedAll(b, level)
    decreases |a|
  {
    if a == [] {
      assert a + b == b;
    } else {
      SavedJoin(a[1..], b, level);
      assert (a + b)[0] == a[0] && (a + b)[1..] == a[1..] + b;
    }
  }

  lemma SavedOne(t: Tree, level: nat)
    ensures SavedAll([t], level) == Saved(t, level)
  {
    assert [t][1..] == [];
    assert SavedAll([], level) == 0.0;
  }

  // Along a path ---------------------------------------------------------------------------------

  /** What the branches on a path and everything beside it have saved. */
  ghost function SavedBeside(steps: seq<Step>, top: nat): real
    requires StepsOk(steps) && |steps| <= top
    decreases |steps|
  {
    if steps == [] then 0.0
    else
      var s, level := steps[|steps| - 1], top - |steps|;
      Worth(s.node.seps, level + 1) + SavedAll(KidsBefore(s), level) + SavedAll(KidsAfter(s), level)
      + SavedBeside(steps[..|steps| - 1], top)
  }

  lemma KidSaved(s: Step, x: Tree, level: nat)
    requires StepOk(s)
    ensures Saved(Kid(s, x), level + 1)
         == Worth(s.node.seps, level + 1) + SavedAll(KidsBefore(s), level) + Saved(x, level) + SavedAll(KidsAfter(s), level)
  {
    hide Worth, SavedAll;
    KidSplits(s, x);
    SavedJoin(KidsBefore(s) + [x], KidsAfter(s), level);
    SavedJoin(KidsBefore(s), [x], level);
    SavedOne(x, level);
  }

  lemma {:induction false} PlugSaved(steps: seq<Step>, x: Tree, top: nat)
    requires StepsOk(steps) && |steps| <= top
    ensures Saved(Plug(steps, x), top) == Saved(x, top - |steps|) + SavedBeside(steps, top)
    decreases |steps|
  {
    hide Worth, SavedAll, Saved;
    if steps != [] {
      var s, up := steps[|steps| - 1], steps[..|steps| - 1];
      KidSaved(s, x, top - |steps|);
      PlugSaved(up, Kid(s, x), top);
    }
  }

  // What the puts so far have paid for ------------------------------------------------------------

  /** Each put brings the price of one separator above the leaves, and the tree is no deeper than
      that could have paid for. */
  ghost predicate Paid(t: Tree, top: nat, puts: nat) {
    && (puts * SEP_BYTES) as real >= Saved(t, top)
    && (top >= 1 ==> puts as real >= Price(top))
  }

  /** The puts so far also pay for a separator that is still to be placed above a split node. */
  ghost predicate Owed(steps: seq<Step>, l: Tree, r: Tree, top: nat, puts: nat)
    requires StepsOk(steps) && |steps| <= top
  {
    var level := top - |steps|;
    && (puts * SEP_BYTES) as real
       >= Saved(l, level) + Saved(r, level) + SavedBeside(steps, top) + Price(level + 1) * SEP_BYTES as real
    && (top >= 1 ==> puts as real >= Price(top))
  }

  lemma {:induction false} PriceGrows(a: nat, b: nat)
    requires a <= b
    ensures Price(a) <= Price(b)
    decreases b
  {
    if a < b { PriceGrows(a, b - 1); }
  }

  // Puts -----------------------------------------------------------------------------------------

  lemma LeafRewritten(steps: seq<Step>, x: Tree, x': Tree, top: nat, puts: nat)
    requires StepsOk(steps) && |steps| == top && x.Tip? && x'.Tip? && Paid(Plug(steps, x), top, puts)
    ensures Paid(Plug(steps, x'), top, puts) && Paid(Plug(steps, x'), top, puts + 1)
  {
    hide SavedBeside, Plug;
    PlugSaved(steps, x, top);
    PlugSaved(steps, x', top);
  }

  /** A split leaf owes a separator, which its put pays for. */
  lemma LeafSplit(steps: seq<Step>, x: Tree, l: Tree, r: Tree, top: nat, puts: nat)
    requires StepsOk(steps) && |steps| == top && x.Tip? && l.Tip? && r.Tip? && Paid(Plug(steps, x), top, puts)
    ensures Owed(steps, l, r, top, puts + 1)
  {
    hide SavedBeside, Plug;
    PlugSaved(steps, x, top);
  }

  lemma SepIsSmall(pages: Pages, root: PageId, steps: seq<Step>, l: Tree, sep: Pos, r: Tree, top: nat)
    requires Pending(pages, root, steps, l, sep, r, top)
    ensures |sep.key| + 12 <= MAX_ENTRY_BYTES
  {
    hide HalvesOnce, HalvesStored, PathGood, Good, Full, PathFull;
  }

  /** The root splits: what was owed is what a tree one level deeper must have cost. */
  lemma RootGrows(l: Tree, sep: Pos, r: Tree, top: nat, puts: nat, id: PageId)
    requires Owed([], l, r, top, puts) && |sep.key| + 12 <= MAX_ENTRY_BYTES
    ensures Paid(Branch(id, [l, r], [sep]), top + 1, puts)
  {
    hide Price;
    assert SepSizes([sep]) == [SepSize(sep)];
    SumOne(SepSize(sep));
    assert Worth([sep], top + 1) == 0.0;
    assert [l, r] == [l] + [r];
    SavedJoin([l], [r], top);
    SavedOne(l, top);
    SavedOne(r, top);
  }

  lemma WideSaved(s: Step, l: Tree, sep: Pos, r: Tree, level: nat)
    requires StepOk(s)
    ensures SavedAll(WideKids(s, l, r), level)
         == SavedAll(KidsBefore(s), level) + Saved(l, level) + Saved(r, level) + SavedAll(KidsAfter(s), level)
  {
    hide Saved, SavedAll;
    assert [l, r] == [l] + [r];
    SavedJoin(KidsBefore(s) + [l, r], KidsAfter(s), level);
    SavedJoin(KidsBefore(s), [l, r], level);
    SavedJoin([l], [r], level);
    SavedOne(l, level);
    SavedOne(r, level);
  }

  lemma WideAbove(s: Step, sep: Pos)
    requires StepOk(s) && |sep.key| + 12 <= MAX_ENTRY_BYTES
    ensures Above(Filled(WideSeps(s, sep))) <= Above(Filled(s.node.seps)) + SEP_BYTES
  {
    hide Sum;
    WideSum(s.node.seps, s.at, sep);
  }

  /** A separator more is worth at most what was owed for it. */
  lemma WideWorth(s: Step, sep: Pos, level: nat)
    requires StepOk(s) && |sep.key| + 12 <= MAX_ENTRY_BYTES
    ensures Worth(WideSeps(s, sep), level) <= Worth(s.node.seps, level) + Price(level) * SEP_BYTES as real
  {
    hide Sum, Price, Filled, Above;
    WideAbove(s, sep);
    var p, n, m := Price(level), Above(Filled(WideSeps(s, sep))) as real, Above(Filled(s.node.seps)) as real;
    Scale(p, n, m + SEP_BYTES as real);
    Spread(p, m, SEP_BYTES as real);
  }

  lemma Scale(p: real, a: real, b: real)
    requires p >= 0.0 && a <= b
    ensures p * a <= p * b
  {
  }

  lemma Spread(p: real, a: real, b: real)
    ensures p * (a + b) == p * a + p * b
  {
  }

  lemma Regroup3(p: real, x: real)
    ensures p * (1.75 * x) == (1.75 * p) * x
  {
  }

  /** The separator is placed in its parent. */
  lemma SeparatorPlaced(steps: seq<Step>, l: Tree, sep: Pos, r: Tree, top: nat, puts: nat)
    requires StepsOk(steps) && steps != [] && |steps| <= top && Owed(steps, l, r, top, puts) && |sep.key| + 12 <= MAX_ENTRY_BYTES
    requires |WideKids(steps[|steps| - 1], l, r)| == |WideSeps(steps[|steps| - 1], sep)| + 1
    ensures Paid(Plug(steps[..|steps| - 1], WideNode(steps[|steps| - 1], l, sep, r)), top, puts)
  {
    hide Price, Worth, SavedAll, Plug;
    var s, up, level := steps[|steps| - 1], steps[..|steps| - 1], top - |steps|;
    WideSaved(s, l, sep, r, level);
    WideWorth(s, sep, level + 1);
    PlugSaved(up, WideNode(s, l, sep, r), top);
  }

  // A branch splits ------------------------------------------------------------------------------

  /** Both halves of a split node, the middle item gone, are close to even. */
  lemma {:induction false} HalvesEven(sizes: seq<nat>, mid: nat)
    requires Sizes(sizes) && 8179 < Sum(sizes) + 2 * |sizes|
    requires 1 <= mid < |sizes| && (mid > 1 ==> Sum(sizes[..mid]) <= Sum(sizes) / 2)
    requires Sum(sizes[..mid]) + sizes[mid] > Sum(sizes) / 2
    ensures var t, a, b := Sum(sizes) + 2 * |sizes|, Sum(sizes[..mid]) + 2 * mid, Sum(sizes[mid + 1..]) + 2 * (|sizes| - mid - 1);
            t == a + b + sizes[mid] + 2 && 13 * a <= 7 * t && 13 * b <= 7 * t
  {
    hide Sum;
    SumSplit(sizes, mid);
    assert sizes[mid..] == [sizes[mid]] + sizes[mid + 1..];
    SumJoin([sizes[mid]], sizes[mid + 1..]);
    SumOne(sizes[mid]);
    SumBounds(sizes);
    SumBounds(sizes[..mid]);
    SumBounds(sizes[mid + 1..]);
  }

  /** The halves give up enough to pay for a separator one level up. */
  lemma SplitGivesUp(ws: seq<Pos>, mid: nat)
    requires !InteriorFits(ws) && (forall i {:trigger ws[i]} :: 0 <= i < |ws| ==> |ws[i].key| + 12 <= MAX_ENTRY_BYTES)
    requires var sizes := SepSizes(ws);
             1 <= mid < |sizes| && (mid > 1 ==> Sum(sizes[..mid]) <= Sum(sizes) / 2) && Sum(sizes[..mid]) + sizes[mid] > Sum(sizes) / 2
    ensures 4 * Above(Filled(ws)) >= 4 * (Above(Filled(ws[..mid])) + Above(Filled(ws[mid + 1..]))) + 7 * SEP_BYTES
  {
    hide Sum;
    HalvesEven(SepSizes(ws), mid);
    assert SepSizes(ws[..mid]) == SepSizes(ws)[..mid];
    assert SepSizes(ws[mid + 1..]) == SepSizes(ws)[mid + 1..];
  }

  lemma SplitWorth(ws: seq<Pos>, mid: nat, level: nat)
    requires level >= 1 && !InteriorFits(ws) && (forall i {:trigger ws[i]} :: 0 <= i < |ws| ==> |ws[i].key| + 12 <= MAX_ENTRY_BYTES)
    requires var sizes := SepSizes(ws);
             1 <= mid < |sizes| && (mid > 1 ==> Sum(sizes[..mid]) <= Sum(sizes) / 2) && Sum(sizes[..mid]) + sizes[mid] > Sum(sizes) / 2
    ensures Worth(ws, level) >= Worth(ws[..mid], level) + Worth(ws[mid + 1..], level) + Price(level + 1) * SEP_BYTES as real
  {
    hide Sum, Filled, Price, Above;
    SplitGivesUp(ws, mid);
    var p, t, a, b := Price(level), Above(Filled(ws)) as real, Above(Filled(ws[..mid])) as real, Above(Filled(ws[mid + 1..])) as real;
    assert t >= a + b + 1.75 * SEP_BYTES as real;
    PriceDoubles(level);
    PaysFor(p, t, a, b, SEP_BYTES as real);
  }

  lemma PaysFor(p: real, t: real, a: real, b: real, x: real)
    requires p >= 0.0 && t >= a + b + 1.75 * x
    ensures p * t >= p * a + p * b + (1.75 * p) * x
  {
    Scale(p, a + b + 1.75 * x, t);
    Spread(p, a + b, 1.75 * x);
    Spread(p, a, b);
    Regroup3(p, x);
  }

  lemma BranchSplits(steps: seq<Step>, l: Tree, sep: Pos, r: Tree, top: nat, puts: nat, mid: nat, id: PageId)
    requires StepsOk(steps) && steps != [] && |steps| <= top && Owed(steps, l, r, top, puts) && |sep.key| + 12 <= MAX_ENTRY_BYTES
    requires var ws := WideSeps(steps[|steps| - 1], sep);
             && !InteriorFits(ws) && (forall i {:trigger ws[i]} :: 0 <= i < |ws| ==> |ws[i].key| + 12 <= MAX_ENTRY_BYTES)
             && var sizes := SepSizes(ws);
             1 <= mid < |sizes| && (mid > 1 ==> Sum(sizes[..mid]) <= Sum(sizes) / 2) && Sum(sizes[..mid]) + sizes[mid] > Sum(sizes) / 2
    requires |WideKids(steps[|steps| - 1], l, r)| == |WideSeps(steps[|steps| - 1], sep)| + 1
    ensures var s := steps[|steps| - 1];
            Owed(steps[..|steps| - 1], LowHalf(s, l, sep, r, mid), HighHalf(s, l, sep, r, mid, id), top, puts)
  {
    hide Sum, Price, Worth, SavedAll, WideKids, InteriorFits;
    var s, level := steps[|steps| - 1], top - |steps|;
    var kids := WideKids(s, l, r);
    WideSaved(s, l, sep, r, level);
    WideWorth(s, sep, level + 1);
    SplitWorth(WideSeps(s, sep), mid, level + 1);
    assert kids == kids[..mid + 1] + kids[mid + 1..];
    SavedJoin(kids[..mid + 1], kids[mid + 1..], level);
  }

  // Deletes --------------------------------------------------------------------------------------

  lemma CutAbove(seps: seq<Pos>, at: nat)
    requires seps != [] && at <= |seps|
    ensures Above(Filled(CutSeps(seps, at))) <= Above(Filled(seps))
  {
    hide Sum;
    var gone := if at == 0 then 0 else at - 1;
    assert CutSeps(seps, at) == seps[..gone] + seps[gone + 1..];
    var a, b := SepSizes(seps[..gone]), SepSizes(seps[gone + 1..]);
    assert SepSizes(seps) == a + ([SepSize(seps[gone])] + b) && SepSizes(CutSeps(seps, at)) == a + b;
    SumJoin(a, b);
    SumJoin(a, [SepSize(seps[gone])] + b);
    SumJoin([SepSize(seps[gone])], b);
  }

  lemma CutWorth(seps: seq<Pos>, at: nat, level: nat)
    requires seps != [] && at <= |seps|
    ensures Worth(CutSeps(seps, at), level) <= Worth(seps, level)
  {
    hide Price, Filled, Above;
    CutAbove(seps, at);
    Scale(Price(level), Above(Filled(CutSeps(seps, at))) as real, Above(Filled(seps)) as real);
  }

  /** A branch that loses a child saves no more than before. */
  lemma CutSaved(s: Step, y: Tree, level: nat)
    requires StepOk(s) && s.node.seps != []
    ensures Saved(CutNode(s), level + 1) <= Saved(Kid(s, y), level + 1)
  {
    hide Worth, SavedAll;
    KidSaved(s, y, level);
    CutWorth(s.node.seps, s.at, level + 1);
    SavedJoin(KidsBefore(s), KidsAfter(s), level);
  }

  lemma CutPaid(steps: seq<Step>, k: nat, x: Tree, y: Tree, gone: set<PageId>, top: nat, puts: nat)
    requires OnlyChain(steps, k, x, y, gone) && 1 <= k && |steps| <= top && steps[k - 1].node.seps != []
    requires Paid(Plug(steps, x), top, puts)
    ensures StepOk(steps[k - 1]) && Paid(Plug(steps[..k - 1], CutNode(steps[k - 1])), top, puts)
  {
    hide Saved, SavedBeside, Plug, Ids, LeftLeaves, RightLeaves, CutNode;
    var s, up := steps[k - 1], steps[..k];
    assert up[k - 1] == s && up[..k - 1] == steps[..k - 1];
    PlugOnce(up, y);
    PlugSaved(steps[..k - 1], Kid(s, y), top);
    PlugSaved(steps[..k - 1], CutNode(s), top);
    CutSaved(s, y, top - k);
  }

  lemma PlugOnce(steps: seq<Step>, y: Tree)
    requires StepsOk(steps) && steps != []
    ensures Plug(steps, y) == Plug(steps[..|steps| - 1], Kid(steps[|steps| - 1], y))
  {
  }

  /** A root that gives way to its only child. */
  lemma CollapsePaid(t: Tree, top: nat, puts: nat)
    requires t.Branch? && |t.kids| == 1 && t.seps == [] && top > 0 && Paid(t, top, puts)
    ensures Paid(t.kids[0], top - 1, puts)
  {
    hide Price;
    assert t.kids == [t.kids[0]];
    SavedOne(t.kids[0], top - 1);
    PriceGrows(top - 1, top);
  }

  // The bound ------------------------------------------------------------------------------------

  /** More puts than any index has seen: below this many, no walk is refused for depth. */
  const FEASIBLE_PUTS: nat := 3_000_000_000_000_000

  lemma PriceDoubles(level: nat)
    requires level >= 1
    ensures Price(level + 1) == 1.75 * Price(level)
  {
  }

  /** Sixteen levels cost more than 7,700 times as much. */
  lemma PriceSixteen(level: nat)
    requires level >= 1
    ensures Price(level + 16) >= 7700.0 * Price(level)
  {
    hide Price;
    PriceDoubles(level); PriceDoubles(level + 1); PriceDoubles(level + 2); PriceDoubles(level + 3);
    PriceDoubles(level + 4); PriceDoubles(level + 5); PriceDoubles(level + 6); PriceDoubles(level + 7);
    PriceDoubles(level + 8); PriceDoubles(level + 9); PriceDoubles(level + 10); PriceDoubles(level + 11);
    PriceDoubles(level + 12); PriceDoubles(level + 13); PriceDoubles(level + 14); PriceDoubles(level + 15);
  }

  /** A tree deeper than sixty-four levels took more puts than that. */
  lemma DeepIsDear(t: Tree, top: nat, puts: nat)
    requires Paid(t, top, puts) && top > 64
    ensures puts >= FEASIBLE_PUTS
  {
    hide Price, Saved;
    assert Price(1) >= 1.0;
    PriceSixteen(1);
    PriceSixteen(17);
    PriceSixteen(33);
    PriceSixteen(49);
    PriceGrows(65, top);
  }
}
