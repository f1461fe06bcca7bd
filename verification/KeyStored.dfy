/** An index as it lies in pages, with its leaves linked both ways. */
module KeyStored {
  import opened Bytes
  import opened Sequences
  import opened KeyOrder
  import opened KeyNode
  import opened KeyShape
  import opened KeyPath

  type Pages = map<PageId, Node>

  ghost function KidIds(kids: seq<Tree>): seq<PageId> { seq(|kids|, i requires 0 <= i < |kids| => kids[i].id) }

  /** The page of a branch with children `ids`. */
  ghost function PageFor(ids: seq<PageId>, seps: seq<Pos>): Node
    requires |ids| == |seps| + 1
  {
    Interior(ids[0], seq(|seps|, i requires 0 <= i < |seps| => Sep(seps[i], ids[i + 1])))
  }

  ghost predicate Stored(pages: Pages, t: Tree) {
    && t.id in pages
    && match t
       case Tip(id, es) => pages[id].Leaf? && pages[id].entries == es
       case Branch(id, kids, seps) =>
         |kids| == |seps| + 1 && pages[id] == PageFor(KidIds(kids), seps) && StoredAll(pages, kids)
  }

  ghost predicate StoredAll(pages: Pages, ts: seq<Tree>) {
    ts != [] ==> Stored(pages, ts[0]) && StoredAll(pages, ts[1..])
  }

  ghost predicate Same(pages: Pages, pages': Pages, ids: set<PageId>) {
    forall p {:trigger pages'[p]} {:trigger p in ids} :: p in ids && p in pages ==> p in pages' && pages'[p] == pages[p]
  }

  /** The same nodes, but for the links of leaves. */
  ghost predicate SameBody(pages: Pages, pages': Pages, ids: set<PageId>) {
    forall p {:trigger pages'[p]} {:trigger p in ids} :: p in ids && p in pages ==>
      && p in pages'
      && (pages'[p] == pages[p] || (pages[p].Leaf? && pages'[p].Leaf? && pages'[p].entries == pages[p].entries))
  }

  lemma SameSome(pages: Pages, pages': Pages, more: set<PageId>, ids: set<PageId>)
    requires Same(pages, pages', more) && ids <= more
    ensures Same(pages, pages', ids)
  {
    forall p | p in ids && p in pages ensures p in pages' && pages'[p] == pages[p] { assert p in more; }
  }

  lemma {:induction false} StoredFrame(pages: Pages, pages': Pages, t: Tree)
    requires Stored(pages, t) && SameBody(pages, pages', Ids(t))
    ensures Stored(pages', t)
    decreases t
  {
    assert t.id in Ids(t);
    match t
    case Tip(_, _) =>
    case Branch(_, kids, _) => StoredAllFrame(pages, pages', kids);
  }

  lemma {:induction false} StoredAllFrame(pages: Pages, pages': Pages, ts: seq<Tree>)
    requires StoredAll(pages, ts) && SameBody(pages, pages', IdsOf(ts))
    ensures StoredAll(pages', ts)
    decreases ts
  {
    if ts != [] {
      StoredFrame(pages, pages', ts[0]);
      StoredAllFrame(pages, pages', ts[1..]);
    }
  }

  lemma {:induction false} StoredJoin(pages: Pages, a: seq<Tree>, b: seq<Tree>)
    ensures StoredAll(pages, a + b) <==> StoredAll(pages, a) && StoredAll(pages, b)
    decreases |a|
  {
    if a == [] {
      assert a + b == b;
    } else {
      StoredJoin(pages, a[1..], b);
      assert (a + b)[1..] == a[1..] + b;
    }
  }

  lemma {:induction false} StoredOne(pages: Pages, t: Tree)
    ensures StoredAll(pages, [t]) <==> Stored(pages, t)
  {
    assert [t][1..] == [];
  }

  lemma {:induction false} KidsStored(pages: Pages, a: seq<Tree>, x: Tree, b: seq<Tree>)
    ensures StoredAll(pages, a + [x] + b) <==> StoredAll(pages, a) && Stored(pages, x) && StoredAll(pages, b)
  {
    StoredJoin(pages, a + [x], b);
    StoredJoin(pages, a, [x]);
    StoredOne(pages, x);
  }

  lemma {:induction false} StoredKid(pages: Pages, ts: seq<Tree>, i: nat)
    requires StoredAll(pages, ts) && i < |ts|
    ensures Stored(pages, ts[i])
    decreases |ts|
  {
    if i > 0 { StoredKid(pages, ts[1..], i - 1); }
  }

  // Along a path ---------------------------------------------------------------------------------

  /** The branches on the path are stored, the last one naming `id` as the child taken. */
  ghost predicate PathStored(pages: Pages, steps: seq<Step>, id: PageId)
    requires StepsOk(steps)
    decreases |steps|
  {
    steps != [] ==>
      var s := steps[|steps| - 1];
      && s.node.id in pages
      && pages[s.node.id] == PageFor(KidIds(s.node.kids)[s.at := id], s.node.seps)
      && StoredAll(pages, KidsBefore(s)) && StoredAll(pages, KidsAfter(s))
      && PathStored(pages, steps[..|steps| - 1], s.node.id)
  }

  lemma {:induction false} PlugStored(pages: Pages, steps: seq<Step>, x: Tree)
    requires StepsOk(steps)
    ensures Stored(pages, Plug(steps, x)) <==> PathStored(pages, steps, x.id) && Stored(pages, x)
    decreases |steps|
  {
    if steps != [] {
      var s := steps[|steps| - 1];
      KidSplits(s, x);
      KidsStored(pages, KidsBefore(s), x, KidsAfter(s));
      PlugStored(pages, steps[..|steps| - 1], Kid(s, x));
      assert KidIds(Kid(s, x).kids) == KidIds(s.node.kids)[s.at := x.id];
    }
  }

  lemma {:induction false} PathFrame(pages: Pages, pages': Pages, steps: seq<Step>, id: PageId)
    requires StepsOk(steps) && PathStored(pages, steps, id) && SameBody(pages, pages', PathIds(steps))
    ensures PathStored(pages', steps, id)
    decreases |steps|
  {
    if steps != [] {
      var s := steps[|steps| - 1];
      StoredAllFrame(pages, pages', KidsBefore(s));
      StoredAllFrame(pages, pages', KidsAfter(s));
      PathFrame(pages, pages', steps[..|steps| - 1], s.node.id);
      assert s.node.id in PathIds(steps);
    }
  }

  // Links ----------------------------------------------------------------------------------------

  ghost predicate LinkOk(pages: Pages, ids: seq<PageId>, k: nat)
    requires k < |ids|
  {
    && ids[k] in pages && pages[ids[k]].Leaf?
    && pages[ids[k]].prev == (if k == 0 then None else Some(ids[k - 1]))
    && pages[ids[k]].next == (if k + 1 == |ids| then None else Some(ids[k + 1]))
  }

  /** The leaves, in order, are linked to their neighbours on both sides. */
  ghost predicate LinksOk(pages: Pages, ids: seq<PageId>) {
    forall k: nat {:trigger LinkOk(pages, ids, k)} :: k < |ids| ==> LinkOk(pages, ids, k)
  }

  lemma {:induction false} LeafIdsIn(t: Tree)
    ensures forall k {:trigger Leaves(t)[k]} :: 0 <= k < |Leaves(t)| ==> Leaves(t)[k].Tip? && Leaves(t)[k].id in Ids(t)
    decreases t
  {
    match t
    case Tip(_, _) =>
    case Branch(_, kids, _) => LeafIdsInAll(kids);
  }

  lemma {:induction false} LeafIdsInAll(ts: seq<Tree>)
    ensures forall k {:trigger LeavesOf(ts)[k]} :: 0 <= k < |LeavesOf(ts)| ==>
              LeavesOf(ts)[k].Tip? && LeavesOf(ts)[k].id in IdsOf(ts)
    decreases ts
  {
    if ts != [] {
      LeafIdsIn(ts[0]);
      LeafIdsInAll(ts[1..]);
    }
  }

  /** The leaves are distinct pages. */
  lemma {:induction false} LeafIdsOnce(t: Tree)
    requires Once(t)
    ensures forall j, k {:trigger Leaves(t)[j], Leaves(t)[k]} :: 0 <= j < k < |Leaves(t)| ==> Leaves(t)[j].id != Leaves(t)[k].id
    decreases t
  {
    match t
    case Tip(_, _) =>
    case Branch(_, kids, _) => LeafIdsOnceAll(kids);
  }

  lemma {:induction false} LeafIdsOnceAll(ts: seq<Tree>)
    requires OnceAll(ts)
    ensures forall j, k {:trigger LeavesOf(ts)[j], LeavesOf(ts)[k]} :: 0 <= j < k < |LeavesOf(ts)| ==>
              LeavesOf(ts)[j].id != LeavesOf(ts)[k].id
    decreases ts
  {
    if ts != [] {
      LeafIdsOnce(ts[0]);
      LeafIdsOnceAll(ts[1..]);
      LeafIdsIn(ts[0]);
      LeafIdsInAll(ts[1..]);
    }
  }
}
