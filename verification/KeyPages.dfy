/** Listing the pages of an index without reading its leaves. */
module KeyPages {
  import opened Bytes
  import opened Distinctness
  import opened Sequences
  import opened KeyOrder
  import opened KeyNode
  import opened KeyShape
  import opened KeyPath
  import opened KeyStored
  import opened KeyGrow
  import opened KeyLeaf
  import opened KeyCut

  /** All leaves lie `n` levels down. */
  ghost predicate Even(t: Tree, n: nat) {
    match t
    case Tip(_, _) => n == 0
    case Branch(_, kids, seps) =>
      n > 0 && |kids| == |seps| + 1 && forall i {:trigger kids[i]} :: 0 <= i < |kids| ==> Even(kids[i], n - 1)
  }

  lemma {:induction false} GoodIsEven(t: Tree, n: nat, lo: Edge, hi: Edge)
    requires Good(t, n, lo, hi)
    ensures Even(t, n)
    decreases t
  {
    if t.Branch? {
      assert KidsGood(t.kids, t.seps, n - 1, lo, hi);
      forall i | 0 <= i < |t.kids| ensures Even(t.kids[i], n - 1) {
        GoodIsEven(t.kids[i], n - 1, LoOf(t.seps, i, lo), HiOf(t.seps, i, hi));
      }
    }
  }

  ghost function SetOf(ids: seq<PageId>): set<PageId> { set p | p in ids }

  /** A walk part done: `out` are the pages listed, `todo` the subtrees left, and together they are
      the index, nothing twice. */
  ghost predicate Listing(t: Tree, out: seq<PageId>, todo: seq<Tree>) {
    && Distinct(out) && OnceAll(todo) && SetOf(out) !! IdsOf(todo)
    && SetOf(out) + IdsOf(todo) == Ids(t)
  }

  lemma {:induction false} ListingStart(t: Tree)
    requires Once(t)
    ensures Listing(t, [], [t])
  {
    SingleTree(t);
  }

  lemma {:induction false} ListingEnd(t: Tree, out: seq<PageId>)
    requires Listing(t, out, [])
    ensures SetOf(out) == Ids(t) && Distinct(out)
  {
  }

  /** A subtree taken up: its root is listed, its children are left. */
  lemma {:induction false} ListRoot(t: Tree, out: seq<PageId>, todo: seq<Tree>, x: Tree)
    requires Listing(t, out, todo + [x])
    ensures Listing(t, out + [x.id], todo + if x.Branch? then x.kids else [])
    ensures IdsOf(todo + if x.Branch? then x.kids else []) < IdsOf(todo + [x])
  {
    hide IdsOf, OnceAll;
    var kids := if x.Branch? then x.kids else [];
    NoIds();
    IdsJoin(todo, [x]);
    IdsJoin(todo, kids);
    OnceJoin(todo, [x]);
    OnceJoin(todo, kids);
    SingleTree(x);
    assert SetOf(out + [x.id]) == SetOf(out) + {x.id};
    assert x.id in IdsOf(todo + [x]);
  }

  lemma NoIds()
    ensures IdsOf([]) == {} && OnceAll([])
  {
  }

  /** Leaves are listed by their parent's page alone. */
  lemma {:induction false} ListLeaves(t: Tree, out: seq<PageId>, todo: seq<Tree>, kids: seq<Tree>)
    requires Listing(t, out, todo + kids) && (forall i {:trigger kids[i]} :: 0 <= i < |kids| ==> kids[i].Tip?)
    ensures Listing(t, out + KidIds(kids), todo)
    ensures IdsOf(todo) <= IdsOf(todo + kids)
  {
    hide IdsOf, OnceAll;
    IdsJoin(todo, kids);
    OnceJoin(todo, kids);
    TipIds(kids);
    var ids := KidIds(kids);
    assert Distinct(ids) by {
      forall j, k | 0 <= j < k < |ids| ensures ids[j] != ids[k] { RootsDiffer(kids, j, k); }
    }
    assert SetOf(out + ids) == SetOf(out) + SetOf(ids);
    forall j, k | 0 <= j < k < |out + ids| ensures (out + ids)[j] != (out + ids)[k] {
      assert j < |out| <= k ==> (out + ids)[j] in SetOf(out) && (out + ids)[k] in SetOf(ids);
    }
  }

  lemma {:induction false} TipIds(kids: seq<Tree>)
    requires forall i {:trigger kids[i]} :: 0 <= i < |kids| ==> kids[i].Tip?
    ensures IdsOf(kids) == SetOf(KidIds(kids))
    decreases |kids|
  {
    if kids != [] {
      TipIds(kids[1..]);
      assert KidIds(kids) == [kids[0].id] + KidIds(kids[1..]);
    }
  }

  /** The subtrees left are stored, each with its leaves at the common depth. */
  ghost predicate Stacked(pages: Pages, stack: seq<(PageId, nat)>, todo: seq<Tree>, depth: nat) {
    && |stack| == |todo|
    && (forall i {:trigger todo[i]} {:trigger stack[i]} :: 0 <= i < |todo| ==>
          stack[i].0 == todo[i].id && stack[i].1 <= depth && Stored(pages, todo[i]) && Even(todo[i], depth - stack[i].1))
  }

  /** The children an interior page names. */
  function ChildrenOf(page: Node): seq<PageId>
    requires page.Interior?
  {
    [page.leftmost] + seq(|page.seps|, i requires 0 <= i < |page.seps| => page.seps[i].child)
  }

  lemma ChildrenAre(pages: Pages, x: Tree, n: nat)
    requires Stored(pages, x) && Even(x, n) && n > 0
    ensures x.Branch? && pages[x.id].Interior? && ChildrenOf(pages[x.id]) == KidIds(x.kids)
    ensures forall i {:trigger x.kids[i]} :: 0 <= i < |x.kids| ==> Stored(pages, x.kids[i]) && Even(x.kids[i], n - 1)
  {
    forall i | 0 <= i < |x.kids| ensures Stored(pages, x.kids[i]) && Even(x.kids[i], n - 1) { StoredKid(pages, x.kids, i); }
  }
}
