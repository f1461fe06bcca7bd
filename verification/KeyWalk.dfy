/** Walking the leaves of an index along their links, in either direction. */
module KeyWalk {
  import opened Bytes
  import opened Sequences
  import opened KeyOrder
  import opened KeyNode
  import opened KeyShape
  import opened KeyPath
  import opened KeyEntries
  import opened KeyStored
  import opened KeyGrow
  import opened KeyLeaf
  import opened KeyMoves
  import opened KeyScan

  lemma {:induction false} LeavesStored(pages: Pages, t: Tree)
    requires Stored(pages, t)
    ensures forall k {:trigger Leaves(t)[k]} :: 0 <= k < |Leaves(t)| ==> Leaves(t)[k].Tip? && Stored(pages, Leaves(t)[k])
    decreases t
  {
    match t
    case Tip(_, _) =>
    case Branch(_, kids, _) => LeavesStoredAll(pages, kids);
  }

  lemma {:induction false} LeavesStoredAll(pages: Pages, ts: seq<Tree>)
    requires StoredAll(pages, ts)
    ensures forall k {:trigger LeavesOf(ts)[k]} :: 0 <= k < |LeavesOf(ts)| ==> LeavesOf(ts)[k].Tip? && Stored(pages, LeavesOf(ts)[k])
    decreases ts
  {
    if ts != [] {
      LeavesStored(pages, ts[0]);
      LeavesStoredAll(pages, ts[1..]);
    }
  }

  /** What the page of the `k`-th leaf says. */
  lemma {:induction false} LeafAt(pages: Pages, root: PageId, t: Tree, top: nat, k: nat)
    requires TreeOk(pages, root, t, top) && k < |Leaves(t)|
    ensures var leaves := Leaves(t);
            && leaves[k].id in pages && pages[leaves[k].id].Leaf? && leaves[k].Tip? && pages[leaves[k].id].entries == leaves[k].entries
            && pages[leaves[k].id].next == (if k + 1 == |leaves| then None else Some(leaves[k + 1].id))
            && pages[leaves[k].id].prev == (if k == 0 then None else Some(leaves[k - 1].id))
            && All(t) == Entries(leaves[..k]) + leaves[k].entries + Entries(leaves[k + 1..])
            && Entries(leaves[..k + 1]) == Entries(leaves[..k]) + leaves[k].entries
            && Entries(leaves[k..]) == leaves[k].entries + Entries(leaves[k + 1..])
            && leaves[..|leaves|] == leaves && Sorted(All(t))
  {
    hide Good, Full, Once, Leaves, LeavesOf, Sorted;
    var leaves := Leaves(t);
    LeavesStored(pages, t);
    assert LinkOk(pages, LeafIds(leaves), k);
    AllOf(leaves[..k], [leaves[k]], leaves[k + 1..]);
    assert leaves == leaves[..k] + [leaves[k]] + leaves[k + 1..];
    assert leaves[..k + 1] == leaves[..k] + [leaves[k]];
    assert leaves[k..] == [leaves[k]] + leaves[k + 1..];
    EntriesJoin(leaves[..k], [leaves[k]]);
    EntriesJoin([leaves[k]], leaves[k + 1..]);
    TipEntries(leaves[k]);
    TreeEntries(t, top, Lowest, Highest);
  }

  /** The part of it a walk along the leaves needs. */
  lemma LeafHere(pages: Pages, root: PageId, t: Tree, top: nat, k: nat)
    requires TreeOk(pages, root, t, top) && k < |Leaves(t)|
    ensures var id := Leaves(t)[k].id;
            && id in pages && pages[id].Leaf? && Leaves(t)[k].Tip? && pages[id].entries == Leaves(t)[k].entries
            && pages[id].next == (if k + 1 == |Leaves(t)| then None else Some(Leaves(t)[k + 1].id))
            && pages[id].prev == (if k == 0 then None else Some(Leaves(t)[k - 1].id))
  {
    hide TreeOk, Leaves, All, Sorted;
    LeafAt(pages, root, t, top, k);
  }

  /** The `n`-th entry of the `k`-th leaf, counted over the whole index. */
  ghost function FlatIndex(t: Tree, k: nat, n: nat): nat
    requires k <= |Leaves(t)|
  {
    |Entries(Leaves(t)[..k])| + n
  }

  lemma {:induction false} EntryAt(pages: Pages, root: PageId, t: Tree, top: nat, k: nat, n: nat)
    requires TreeOk(pages, root, t, top) && k < |Leaves(t)| && Leaves(t)[k].Tip? && n <= |Leaves(t)[k].entries|
    ensures FlatIndex(t, k, n) <= |All(t)|
    ensures n < |Leaves(t)[k].entries| ==> FlatIndex(t, k, n) < |All(t)| && All(t)[FlatIndex(t, k, n)] == Leaves(t)[k].entries[n]
    ensures n == |Leaves(t)[k].entries| ==> FlatIndex(t, k, n) == FlatIndex(t, k + 1, 0)
    ensures k + 1 == |Leaves(t)| && n == |Leaves(t)[k].entries| ==> FlatIndex(t, k, n) == |All(t)|
  {
    hide TreeOk, Leaves, Sorted;
    LeafAt(pages, root, t, top, k);
  }

  // Forward --------------------------------------------------------------------------------------

  lemma {:induction false} SelectedNext(all: seq<Entry>, m: nat, start: Start, hi: Bound)
    requires m < |all|
    ensures Selected(all[..m + 1], start, hi) == Selected(all[..m], start, hi) + if Wanted(start, hi, all[m].pos) then [all[m]] else []
    ensures Selected(all[..m + 1], start, hi) <= Selected(all, start, hi)
  {
    hide Wanted;
    assert all[..m + 1][..m] == all[..m];
    assert all == all[..m + 1] + all[m + 1..];
    SelectedJoin(all[..m + 1], all[m + 1..], start, hi);
  }

  lemma {:induction false} SelectedAll(all: seq<Entry>, start: Start, hi: Bound)
    ensures Selected(all[..|all|], start, hi) == Selected(all, start, hi) && Selected(all[..0], start, hi) == []
  {
    assert all[..|all|] == all;
  }

  /** Past the upper bound, nothing more is wanted. */
  lemma {:induction false} SelectedDone(all: seq<Entry>, m: nat, start: Start, hi: Bound)
    requires Sorted(all) && m < |all| && AboveHi(hi, all[m].pos.key)
    ensures Selected(all, start, hi) == Selected(all[..m], start, hi)
  {
    hide Sorted;
    var rest := all[m..];
    assert all == all[..m] + rest;
    SelectedJoin(all[..m], rest, start, hi);
    forall i | 0 <= i < |rest| ensures !Wanted(start, hi, rest[i].pos) { AboveStays(all, m, m + i, hi); }
    SelectedNone(rest, start, hi);
  }

  /** Everything left of the leaf a forward scan starts at is skipped. */
  lemma {:induction false} SkipLeft(es: seq<Entry>, lo: Edge, start: Start, hi: Bound, p: Pos)
    requires AllWithin(es, Lowest, lo) && From(lo, p)
    requires match start case FromKey(b) => !b.Unbounded? && p == Pos(b.key, 0) case AfterPos(q) => p == q
    ensures Selected(es, start, hi) == []
  {
    forall i | 0 <= i < |es| ensures Skips(start, es[i].pos) {
      assert Within(Lowest, lo, es[i].pos);
      Total(lo.pos, p);
      if Less(lo.pos, p) { Trans(es[i].pos, lo.pos, p); }
      Total(p, es[i].pos);
    }
    SelectedNone(es, start, hi);
  }

  /** The path's leaf in the order of all leaves. */
  lemma {:induction false} PathLeaf(steps: seq<Step>, x: Tree)
    requires StepsOk(steps) && x.Tip?
    ensures var leaves, k := Leaves(Plug(steps, x)), |LeftLeaves(steps)|;
            k < |leaves| && leaves[k] == x && leaves[..k] == LeftLeaves(steps) && leaves[k + 1..] == RightLeaves(steps)
  {
    hide LeavesOf, Plug;
    PlugLeaves(steps, x);
  }

  // Backward -------------------------------------------------------------------------------------

  lemma {:induction false} ReversedNext(all: seq<Entry>, m: nat, start: Start, hi: Bound)
    requires m < |all|
    ensures Reversed(Selected(all[m..], start, hi))
            == Reversed(Selected(all[m + 1..], start, hi)) + if Wanted(start, hi, all[m].pos) then [all[m]] else []
    ensures Reversed(Selected(all[m..], start, hi)) <= Reversed(Selected(all, start, hi))
  {
    hide Wanted, Selected, Reversed;
    assert all[m..] == [all[m]] + all[m + 1..];
    SelectedJoin([all[m]], all[m + 1..], start, hi);
    SelectedOne(all[m], start, hi);
    ReversedJoin(Selected([all[m]], start, hi), Selected(all[m + 1..], start, hi));
    ReversedOne(all[m]);
    assert all == all[..m] + all[m..];
    SelectedJoin(all[..m], all[m..], start, hi);
    ReversedJoin(Selected(all[..m], start, hi), Selected(all[m..], start, hi));
  }

  lemma ReversedOne(e: Entry)
    ensures Reversed([e]) == [e] && Reversed([]) == []
  {
    assert [e][..0] == [];
  }

  /** Before the lower bound, nothing more is wanted. */
  lemma {:induction false} ReversedDone(all: seq<Entry>, m: nat, lo: Bound, hi: Bound)
    requires Sorted(all) && m < |all| && BelowLo(lo, all[m].pos.key)
    ensures Selected(all, FromKey(lo), hi) == Selected(all[m + 1..], FromKey(lo), hi)
  {
    hide Sorted;
    var rest := all[..m + 1];
    assert all == rest + all[m + 1..];
    SelectedJoin(rest, all[m + 1..], FromKey(lo), hi);
    forall i | 0 <= i < |rest| ensures !Wanted(FromKey(lo), hi, rest[i].pos) { BelowStays(all, i, m, lo); }
    SelectedNone(rest, FromKey(lo), hi);
  }

  /** Everything right of the leaf a backward scan starts at is past the upper bound. */
  lemma {:induction false} SkipRight(es: seq<Entry>, edge: Edge, lo: Bound, hi: Bound)
    requires AllWithin(es, edge, Highest) && !hi.Unbounded? && Before(Pos(hi.key, MAX_ROW), edge)
    ensures Selected(es, FromKey(lo), hi) == []
  {
    var p := Pos(hi.key, MAX_ROW);
    forall i | 0 <= i < |es| ensures AboveHi(hi, es[i].pos.key) {
      assert Within(edge, Highest, es[i].pos);
      Total(edge.pos, es[i].pos);
      if Less(edge.pos, es[i].pos) { Trans(p, edge.pos, es[i].pos); }
      Total(p, es[i].pos);
      KeyTotal(hi.key, es[i].pos.key);
    }
    SelectedNone(es, FromKey(lo), hi);
  }
}
