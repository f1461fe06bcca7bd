/** The entries of an index, leaf after leaf, are in order, and a position can only be in the leaf
    its path leads to. */
module KeyEntries {
  import opened Bytes
  import opened Sequences
  import opened KeyOrder
  import opened KeyNode
  import opened KeyShape
  import opened KeyPath

  ghost predicate AllWithin(es: seq<Entry>, lo: Edge, hi: Edge) {
    forall i {:trigger es[i]} :: 0 <= i < |es| ==> Within(lo, hi, es[i].pos)
  }

  lemma SortedJoin(a: seq<Entry>, b: seq<Entry>, lo: Edge, mid: Edge, hi: Edge)
    requires Sorted(a) && Sorted(b) && AllWithin(a, lo, mid) && AllWithin(b, mid, hi)
    ensures Sorted(a + b)
  {
    var c := a + b;
    forall i, j | 0 <= i < j < |c| ensures Less(c[i].pos, c[j].pos) {
      if i < |a| <= j {
        assert c[i] == a[i] && c[j] == b[j - |a|];
        assert Within(lo, mid, a[i].pos) && Within(mid, hi, b[j - |a|].pos);
        Total(mid.pos, c[j].pos);
        if Less(mid.pos, c[j].pos) { Trans(c[i].pos, mid.pos, c[j].pos); }
      }
    }
  }

  lemma WidenAll(es: seq<Entry>, lo: Edge, hi: Edge, lo': Edge, hi': Edge)
    requires AllWithin(es, lo, hi) && EdgeLe(lo', lo) && EdgeLe(hi, hi')
    ensures AllWithin(es, lo', hi')
  {
    forall i | 0 <= i < |es| ensures Within(lo', hi', es[i].pos) { Widen(lo, hi, lo', hi', es[i].pos); }
  }

  lemma {:induction false} TreeEntries(t: Tree, level: nat, lo: Edge, hi: Edge)
    requires Good(t, level, lo, hi) && EdgeLe(lo, hi)
    ensures Sorted(Entries(Leaves(t))) && AllWithin(Entries(Leaves(t)), lo, hi)
    decreases t, if t.Branch? then |t.kids| + 1 else 0
  {
    match t
    case Tip(_, es) => assert Entries([t]) == es;
    case Branch(_, kids, seps) => KidsEntries(t, level, lo, hi, 0); assert kids[0..] == kids;
  }

  lemma {:induction false} KidsEntries(t: Tree, level: nat, lo: Edge, hi: Edge, k: nat)
    requires t.Branch? && Good(t, level, lo, hi) && EdgeLe(lo, hi) && k <= |t.seps| < |t.kids|
    ensures Sorted(Entries(LeavesOf(t.kids[k..]))) && AllWithin(Entries(LeavesOf(t.kids[k..])), LoOf(t.seps, k, lo), hi)
    decreases t, |t.kids| - k
  {
    hide SepsOk, AllWithin, Sorted, EdgeLe, LeafOk;
    var kids, seps, kid := t.kids, t.seps, t.kids[k];
    assert KidsGood(kids, seps, level - 1, lo, hi);
    var l, h := LoOf(seps, k, lo), HiOf(seps, k, hi);
    assert kids[k..] == [kid] + kids[k + 1..];
    assert LeavesOf(kids[k..]) == Leaves(kid) + LeavesOf(kids[k + 1..]);
    EntriesJoin(Leaves(kid), LeavesOf(kids[k + 1..]));
    RangeLe(seps, lo, hi, k);
    TreeEntries(kid, level - 1, l, h);
    if k == |seps| {
      assert kids[k + 1..] == [];
      NoEntries(lo, hi);
      assert Entries(Leaves(kid)) + [] == Entries(Leaves(kid));
    } else {
      KidsEntries(t, level, lo, hi, k + 1);
      SortedJoin(Entries(Leaves(kid)), Entries(LeavesOf(kids[k + 1..])), l, h, hi);
      EdgeSelf(l);
      EdgeSelf(hi);
      WidenAll(Entries(Leaves(kid)), l, h, l, hi);
      WidenAll(Entries(LeavesOf(kids[k + 1..])), h, hi, l, hi);
      JoinWithin(Entries(Leaves(kid)), Entries(LeavesOf(kids[k + 1..])), l, hi);
    }
  }

  lemma RangeLe(seps: seq<Pos>, lo: Edge, hi: Edge, k: nat)
    requires SepsOk(seps, lo, hi) && EdgeLe(lo, hi) && k <= |seps|
    ensures EdgeLe(LoOf(seps, k, lo), HiOf(seps, k, hi))
    ensures EdgeLe(lo, LoOf(seps, k, lo)) && EdgeLe(HiOf(seps, k, hi), hi)
  {
    EdgeSelf(lo);
    EdgeSelf(hi);
    if 0 < k { assert Within(lo, hi, seps[k - 1]); if hi.Mark? { Total(seps[k - 1], hi.pos); } }
    if k < |seps| { assert Within(lo, hi, seps[k]); if hi.Mark? { Total(seps[k], hi.pos); } }
    if 0 < k < |seps| { assert Less(seps[k - 1], seps[k]); Total(seps[k - 1], seps[k]); }
  }

  lemma {:induction false} KidsFirst(t: Tree, level: nat, lo: Edge, hi: Edge, k: nat)
    requires t.Branch? && Good(t, level, lo, hi) && EdgeLe(lo, hi) && k <= |t.seps| < |t.kids|
    ensures Sorted(Entries(LeavesOf(t.kids[..k]))) && AllWithin(Entries(LeavesOf(t.kids[..k])), lo, LoOf(t.seps, k, lo))
    decreases k
  {
    hide SepsOk, Sorted, AllWithin, EdgeLe, LeafOk;
    var kids, seps := t.kids, t.seps;
    assert KidsGood(kids, seps, level - 1, lo, hi);
    if k == 0 {
      NoEntries(lo, LoOf(seps, k, lo));
    } else {
      var kid, l, h := kids[k - 1], LoOf(seps, k - 1, lo), HiOf(seps, k - 1, hi);
      KidsFirst(t, level, lo, hi, k - 1);
      assert kids[..k] == kids[..k - 1] + [kid];
      LeavesJoin(kids[..k - 1], [kid]);
      SingleTree(kid);
      EntriesJoin(LeavesOf(kids[..k - 1]), Leaves(kid));
      RangeLe(seps, lo, hi, k - 1);
      TreeEntries(kid, level - 1, l, h);
      SortedJoin(Entries(LeavesOf(kids[..k - 1])), Entries(Leaves(kid)), lo, l, h);
      EdgeSelf(lo);
      EdgeSelf(h);
      WidenAll(Entries(LeavesOf(kids[..k - 1])), lo, l, lo, h);
      WidenAll(Entries(Leaves(kid)), l, h, lo, h);
      JoinWithin(Entries(LeavesOf(kids[..k - 1])), Entries(Leaves(kid)), lo, h);
    }
  }

  lemma NoEntries(lo: Edge, hi: Edge)
    ensures Entries(LeavesOf([])) == [] && Sorted([]) && AllWithin([], lo, hi)
  {
  }

  lemma JoinWithin(a: seq<Entry>, b: seq<Entry>, lo: Edge, hi: Edge)
    requires AllWithin(a, lo, hi) && AllWithin(b, lo, hi)
    ensures AllWithin(a + b, lo, hi)
  {
  }

  /** What is left of the path is before its range, what is right of it is after, and the range
      itself is not turned round. */
  lemma {:induction false} Sides(steps: seq<Step>, x: Tree, top: nat)
    requires StepsOk(steps) && Good(Plug(steps, x), top, Lowest, Highest)
    ensures EdgeLe(HoleLo(steps), HoleHi(steps))
    ensures AllWithin(Entries(LeftLeaves(steps)), Lowest, HoleLo(steps))
    ensures AllWithin(Entries(RightLeaves(steps)), HoleHi(steps), Highest)
    decreases |steps|
  {
    hide SepsOk, Sorted, AllWithin, EdgeLe, Good, LeavesOf, PathGood;
    if steps == [] {
      NoEntries(Lowest, HoleLo(steps));
      NoEntries(HoleHi(steps), Highest);
      EdgesLe();
    } else {
      var s, up := steps[|steps| - 1], steps[..|steps| - 1];
      var node := Kid(s, x);
      Sides(up, node, top);
      PlugGood(up, node, top);
      NodeSides(s, x, top - |up|, HoleLo(up), HoleHi(up));
      EntriesJoin(LeftLeaves(up), LeavesOf(KidsBefore(s)));
      EntriesJoin(LeavesOf(KidsAfter(s)), RightLeaves(up));
      EdgeSelf(HoleLo(steps));
      EdgeSelf(HoleHi(steps));
      EdgesLe();
      WidenAll(Entries(LeftLeaves(up)), Lowest, HoleLo(up), Lowest, HoleLo(steps));
      WidenAll(Entries(LeavesOf(KidsBefore(s))), HoleLo(up), HoleLo(steps), Lowest, HoleLo(steps));
      JoinWithin(Entries(LeftLeaves(up)), Entries(LeavesOf(KidsBefore(s))), Lowest, HoleLo(steps));
      WidenAll(Entries(RightLeaves(up)), HoleHi(up), Highest, HoleHi(steps), Highest);
      WidenAll(Entries(LeavesOf(KidsAfter(s))), HoleHi(steps), HoleHi(up), HoleHi(steps), Highest);
      JoinWithin(Entries(LeavesOf(KidsAfter(s))), Entries(RightLeaves(up)), HoleHi(steps), Highest);
    }
  }

  lemma EdgesLe()
    ensures forall e: Edge {:trigger EdgeLe(Lowest, e)} :: EdgeLe(Lowest, e)
    ensures forall e: Edge {:trigger EdgeLe(e, Highest)} :: EdgeLe(e, Highest)
  {
  }

  lemma {:induction false} NodeSides(s: Step, x: Tree, level: nat, lo: Edge, hi: Edge)
    requires StepOk(s) && Good(Kid(s, x), level, lo, hi) && EdgeLe(lo, hi)
    ensures AllWithin(Entries(LeavesOf(KidsBefore(s))), lo, LoOf(s.node.seps, s.at, lo))
    ensures AllWithin(Entries(LeavesOf(KidsAfter(s))), HiOf(s.node.seps, s.at, hi), hi)
    ensures var l, h := LoOf(s.node.seps, s.at, lo), HiOf(s.node.seps, s.at, hi);
            EdgeLe(l, h) && EdgeLe(lo, l) && EdgeLe(h, hi)
  {
    hide Sorted, AllWithin, EdgeLe, LeavesOf;
    var node := Kid(s, x);
    RangeLe(node.seps, lo, hi, s.at);
    KidsFirst(node, level, lo, hi, s.at);
    assert node.kids[..s.at] == KidsBefore(s);
    assert node.kids[s.at + 1..] == KidsAfter(s);
    if s.at < |node.seps| {
      KidsEntries(node, level, lo, hi, s.at + 1);
    } else {
      assert KidsAfter(s) == [];
      NoEntries(HiOf(s.node.seps, s.at, hi), hi);
    }
  }

  /** All entries of the index, in order. */
  ghost function All(t: Tree): seq<Entry> { Entries(Leaves(t)) }

  /** A position in the range of a leaf has its place, in the whole index, inside that leaf. */
  lemma {:induction false} PlaceInAll(steps: seq<Step>, leaf: Tree, top: nat, p: Pos, i: nat)
    requires StepsOk(steps) && leaf.Tip? && Good(Plug(steps, leaf), top, Lowest, Highest)
    requires Within(HoleLo(steps), HoleHi(steps), p) && IsPlace(Positions(leaf.entries), p, i)
    ensures var left := |Entries(LeftLeaves(steps))|;
            && All(Plug(steps, leaf)) == Entries(LeftLeaves(steps)) + leaf.entries + Entries(RightLeaves(steps))
            && IsPlace(Positions(All(Plug(steps, leaf))), p, left + i)
            && Sorted(All(Plug(steps, leaf)))
  {
    hide Good, LeavesOf, Sorted;
    var a, es, b := Entries(LeftLeaves(steps)), leaf.entries, Entries(RightLeaves(steps));
    Sides(steps, leaf, top);
    PlugLeaves(steps, leaf);
    EntriesJoin(LeftLeaves(steps) + Leaves(leaf), RightLeaves(steps));
    EntriesJoin(LeftLeaves(steps), Leaves(leaf));
    TipEntries(leaf);
    EdgesLe();
    TreeEntries(Plug(steps, leaf), top, Lowest, Highest);
    PlaceJoin(a, es, b, HoleLo(steps), HoleHi(steps), p, i);
  }

  lemma {:induction false} TipEntries(leaf: Tree)
    requires leaf.Tip?
    ensures Entries([leaf]) == leaf.entries && Leaves(leaf) == [leaf]
  {
    assert [leaf][1..] == [];
  }

  lemma PlaceJoin(a: seq<Entry>, es: seq<Entry>, b: seq<Entry>, lo: Edge, hi: Edge, p: Pos, i: nat)
    requires AllWithin(a, Lowest, lo) && AllWithin(b, hi, Highest)
    requires Within(lo, hi, p) && IsPlace(Positions(es), p, i)
    ensures IsPlace(Positions(a + es + b), p, |a| + i)
  {
    var all := a + es + b;
    var ps := Positions(all);
    forall j | 0 <= j < |all|
      ensures j < |a| + i ==> Less(ps[j], p)
      ensures j >= |a| + i ==> !Less(ps[j], p)
    {
      if j < |a| {
        assert ps[j] == a[j].pos;
        Total(lo.pos, p);
        if Less(lo.pos, p) { Trans(a[j].pos, lo.pos, p); }
      } else if j < |a| + |es| {
        assert ps[j] == Positions(es)[j - |a|];
      } else {
        assert ps[j] == b[j - |a| - |es|].pos;
        if Less(ps[j], p) { Trans(ps[j], p, hi.pos); }
      }
    }
  }
}
