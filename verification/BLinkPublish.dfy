/** Publishing the separators of a split: which nodes are still waiting for one, and what one
    publish, cascading upward as far as it must, achieves. */
module BLinkPublish {
  import opened Bytes
  import opened BLinkNode
  import opened BLinkInvariant
  import opened BLinkReader
  import opened BLinkSteps

  ghost predicate NodeFits(n: Node) {
    (n.Leaf? ==> LeafFits(n.entries)) && (n.Interior? ==> InteriorFits(n.slots))
  }

  /** Every node fits its page. */
  ghost predicate AllFit(s: Snap) {
    forall p :: p in s.nodes && p in s.pages ==> NodeFits(s.pages[p])
  }

  /** Every node but the root and the `pending` ones is named by a parent; those are not. */
  ghost predicate Complete(s: Snap, pending: set<PageId>) {
    && (forall c {:trigger Published(s, c)} :: c in s.nodes && c !in pending ==> c == s.root || Published(s, c))
    && (forall c {:trigger Published(s, c)} :: c in pending ==> c in s.nodes && c != s.root && !Published(s, c))
  }

  /** The interior pages passed on the way down to `at`, each one level above the next. */
  ghost predicate PathOk(s: Snap, path: seq<PageId>, at: PageId) {
    && at in s.nodes
    && forall i {:trigger PathAt(s, path, at, i)} :: 0 <= i < |path| ==> PathAt(s, path, at, i)
  }

  ghost predicate PathAt(s: Snap, path: seq<PageId>, at: PageId, i: nat)
    requires at in s.nodes && i < |path|
  {
    && path[i] in s.nodes
    && s.nodes[path[i]].level == s.nodes[at].level + |path| - i
    && s.nodes[path[i]].low <= s.nodes[at].low
    && (i + 1 < |path| && path[i + 1] in s.nodes ==> s.nodes[path[i]].low <= s.nodes[path[i + 1]].low)
  }

  /** Whoever names `c` has plenty of room for more separators. */
  ghost predicate RoomFor(s: Snap, c: PageId) {
    forall p {:trigger ParentOf(s, p, c)} :: ParentOf(s, p, c) ==> |s.pages[p].slots| <= 256
  }

  ghost function Top(s: Snap): nat
    requires RootOk(s)
  {
    s.nodes[s.root].level
  }

  /** The recorded path reaches up to the root; or it stops one short of a root that has grown
      since, and then the parent of `left` has room. */
  ghost predicate PathReaches(s: Snap, path: seq<PageId>, left: PageId)
    requires RootOk(s) && left in s.nodes
  {
    || |path| + s.nodes[left].level == Top(s)
    || (path != [] && |path| + s.nodes[left].level + 1 == Top(s) && RoomFor(s, left))
  }

  ghost predicate CanPublish(s: Snap, path: seq<PageId>, left: PageId, right: PageId, pending: set<PageId>) {
    && Inv(s) && AllFit(s) && Complete(s, pending)
    && left in s.nodes && left !in pending && right in pending
    && (forall c :: c in pending && c in s.nodes ==> s.nodes[c].level <= s.nodes[left].level)
    && s.pages[left].link == Some(right)
    && PathOk(s, path, left) && PathReaches(s, path, left)
  }

  /** Nodes at or below `level` are untouched, and no new ones appear there. */
  ghost predicate KeptBelow(s: Snap, t: Snap, level: nat) {
    && (forall x :: x in s.nodes && s.nodes[x].level <= level && x in s.pages ==> x in t.pages && t.pages[x] == s.pages[x])
    && (forall x :: x in t.nodes && t.nodes[x].level <= level ==> x in s.nodes)
  }

  /** `t` is `s` after the right sibling of `left` has been named by a parent. */
  ghost predicate PublishDone(s: Snap, t: Snap, left: PageId, right: PageId, pending: set<PageId>)
    requires RootOk(s) && left in s.nodes
  {
    && Inv(t) && AllFit(t) && Rows(t) == Rows(s) && Extends(s, t)
    && Complete(t, pending - {right})
    && KeptBelow(s, t, s.nodes[left].level)
    && (Top(t) == Top(s) || (Top(t) == Top(s) + 1 && RoomFor(t, right)))
  }

  // --- the same tree on a changed store --------------------------------------------------------

  /** Only pages outside the tree differ. */
  ghost predicate SameTree(s: Snap, t: Snap) {
    && t.nodes == s.nodes && t.root == s.root && t.chains == s.chains
    && forall p :: p in s.nodes ==> p in t.pages && p in s.pages && t.pages[p] == s.pages[p]
  }

  lemma SameTreePublished(s: Snap, t: Snap, c: PageId)
    requires SameTree(s, t)
    ensures Published(s, c) <==> Published(t, c)
    ensures RoomFor(s, c) <==> RoomFor(t, c)
  {
    assert forall p :: ParentOf(s, p, c) <==> ParentOf(t, p, c);
    if Published(s, c) { var p :| ParentOf(s, p, c); assert ParentOf(t, p, c); }
    if Published(t, c) { var p :| ParentOf(t, p, c); assert ParentOf(s, p, c); }
  }

  lemma SameTreeKeeps(s: Snap, t: Snap, pending: set<PageId>)
    requires SameTree(s, t) && Inv(s) && AllFit(s) && Complete(s, pending)
    ensures Inv(t) && AllFit(t) && Complete(t, pending) && Rows(t) == Rows(s) && Extends(s, t)
  {
    OutsidePage(s, t);
    forall c | c in t.nodes && c !in pending
      ensures c == t.root || Published(t, c)
    {
      SameTreePublished(s, t, c);
    }
    forall c | c in pending
      ensures c in t.nodes && c != t.root && !Published(t, c)
    {
      assert !Published(s, c);
      SameTreePublished(s, t, c);
    }
  }

  lemma SameTreeCanPublish(s: Snap, t: Snap, path: seq<PageId>, left: PageId, right: PageId, pending: set<PageId>)
    requires SameTree(s, t) && CanPublish(s, path, left, right, pending)
    ensures CanPublish(t, path, left, right, pending)
  {
    SameTreeKeeps(s, t, pending);
    SameTreePublished(s, t, left);
    PathKept(s, t, path, left);
  }

  lemma PathKept(s: Snap, t: Snap, path: seq<PageId>, at: PageId)
    requires Extends(s, t) && PathOk(s, path, at)
    ensures PathOk(t, path, at)
  {
    forall i | 0 <= i < |path|
      ensures PathAt(t, path, at, i)
    {
      assert PathAt(s, path, at, i);
      if i + 1 < |path| { assert PathAt(s, path, at, i + 1); }
    }
  }

  // --- finding the parent ----------------------------------------------------------------------

  ghost function NodesAbove(s: Snap, low: Key): set<PageId> {
    set x | x in s.nodes && s.nodes[x].low > low
  }

  /** Chasing right links from any node one level up that starts no later than `left` finds
      `left`'s parent: a node that does not name `left` has a right sibling, and that sibling
      still starts no later than `left`. */
  lemma ChaseParent(s: Snap, p: PageId, left: PageId)
    requires NodesOk(s) && Published(s, left) && left in s.nodes
    requires p in s.nodes && s.nodes[p].level == s.nodes[left].level + 1
    requires s.nodes[p].low <= s.nodes[left].low
    requires !Holds(s.pages[p], left)
    ensures s.pages[p].link.Some?
    ensures var q := s.pages[p].link.value;
            && q in s.nodes && s.nodes[q].level == s.nodes[p].level
            && s.nodes[p].low < s.nodes[q].low <= s.nodes[left].low
            && NodesAbove(s, s.nodes[q].low) < NodesAbove(s, s.nodes[p].low)
  {
    var r :| ParentOf(s, r, left);
    ParentLevel(s, r, left);
    assert Apart(s, p, r) && Apart(s, r, p) && NodeOk(s, p) && NodeOk(s, r);
    var q := s.pages[p].link.value;
    assert q in NodesAbove(s, s.nodes[p].low) && q !in NodesAbove(s, s.nodes[q].low);
  }

  // --- the parent has room ---------------------------------------------------------------------

  lemma PublishFits(s: Snap, path: seq<PageId>, p: PageId, left: PageId, right: PageId, pending: set<PageId>)
    requires CanPublish(s, path, left, right, pending) && ParentOf(s, p, left)
    requires InteriorFits(WithSlot(s.pages[p], left, s.pages[left].high, right).slots)
    ensures PublishDone(s, InsertSlot(s, p, left, right), left, right, pending)
  {
    var t := InsertSlot(s, p, left, right);
    InsertSlotKeeps(s, p, left, right);
    ParentLevel(s, p, left);
    InsertSlotComplete(s, p, left, right, pending);
    assert AllFit(t);
  }

  lemma InsertSlotComplete(s: Snap, p: PageId, left: PageId, right: PageId, pending: set<PageId>)
    requires Inv(s) && Complete(s, pending) && ParentOf(s, p, left) && left in s.nodes && right in pending
    ensures Complete(InsertSlot(s, p, left, right), pending - {right})
  {
    var t := InsertSlot(s, p, left, right);
    forall c
      ensures c in t.nodes && c !in pending - {right} ==> c == t.root || Published(t, c)
      ensures c in pending - {right} ==> c in t.nodes && c != t.root && !Published(t, c)
    {
      assert Published(s, c) || !Published(s, c);
      InsertSlotPublishes(s, p, left, right, c);
    }
  }

  // --- the parent splits -----------------------------------------------------------------------

  ghost function ParentSplit(s: Snap, p: PageId, left: PageId, right: PageId, q: PageId): Snap
    requires left in s.pages && IsNode(s.pages[left]) && p in s.pages && s.pages[p].Interior? && p in s.nodes
  {
    var u := InsertSlot(s, p, left, right);
    SplitInterior(u, p, q, |u.pages[p].slots| / 2)
  }

  lemma InvRoot(s: Snap)
    requires Inv(s)
    ensures RootOk(s)
  {
  }

  lemma ParentSplitKeeps(s: Snap, p: PageId, left: PageId, right: PageId, q: PageId, pending: set<PageId>)
    requires Inv(s) && AllFit(s) && Complete(s, pending) && ParentOf(s, p, left) && q !in s.nodes
    requires left in s.nodes && s.pages[left].link == Some(right) && right in pending
    ensures p in s.nodes && p in s.pages && s.pages[p].Interior? && left in s.pages && IsNode(s.pages[left])
    ensures var u := ParentSplit(s, p, left, right, q);
            && Inv(u) && Rows(u) == Rows(s) && Extends(s, u) && KeptBelow(s, u, s.nodes[left].level)
            && u.root == s.root && q in u.nodes && p in u.pages && u.pages[p].link == Some(q)
            && u.nodes[q].level == s.nodes[p].level == s.nodes[left].level + 1
            && u.nodes.Keys == s.nodes.Keys + {q}
  {
    hide Rows, Complete;
    var v := InsertSlot(s, p, left, right);
    ParentLevel(s, p, left);
    NotYetPublished(s, right, pending);
    InsertSlotKeeps(s, p, left, right);
    assert NodeFits(s.pages[p]);
    SplitInteriorKeeps(v, p, q, |v.pages[p].slots| / 2);
  }

  lemma NotYetPublished(s: Snap, c: PageId, pending: set<PageId>)
    requires Complete(s, pending) && c in pending
    ensures !Published(s, c)
  {
  }

  /** An over-full parent splits into two halves of 255 separators; its own right half then waits
      to be published one level up, along the rest of the path. */
  lemma SplitThenPublish(s: Snap, path: seq<PageId>, p: PageId, left: PageId, right: PageId, q: PageId, pending: set<PageId>)
    requires CanPublish(s, path, left, right, pending) && ParentOf(s, p, left) && q !in s.nodes
    requires path != [] && path[|path| - 1] in s.nodes && s.nodes[path[|path| - 1]].low <= s.nodes[p].low
    requires !InteriorFits(WithSlot(s.pages[p], left, s.pages[left].high, right).slots)
    ensures var u := ParentSplit(s, p, left, right, q);
            && CanPublish(u, path[..|path| - 1], p, q, pending - {right} + {q})
            && Rows(u) == Rows(s) && Extends(s, u) && KeptBelow(s, u, s.nodes[left].level)
            && RoomFor(u, right) && Top(u) == Top(s)
            && |u.pages[p].slots| == 255 && |u.pages[q].slots| == 255
            && u.nodes[p].level == u.nodes[left].level + 1
            && s.nodes[p].low == u.nodes[p].low
  {
    hide Inv, Rows, AllFit, Complete, PathOk, InteriorFits, ParentSplit;
    ParentSplitKeeps(s, p, left, right, q, pending);
    var u := ParentSplit(s, p, left, right, q);
    SplitHasRoom(s, path, p, left, right, q, pending);
    SplitComplete(s, p, left, right, q, pending);
    InvRoot(s);
    InvRoot(u);
    SplitPath(s, u, path, p, left, pending);
  }

  lemma SplitHasRoom(s: Snap, path: seq<PageId>, p: PageId, left: PageId, right: PageId, q: PageId, pending: set<PageId>)
    requires CanPublish(s, path, left, right, pending) && ParentOf(s, p, left) && q !in s.nodes
    requires !InteriorFits(WithSlot(s.pages[p], left, s.pages[left].high, right).slots)
    ensures var u := ParentSplit(s, p, left, right, q);
            && |u.pages[p].slots| == 255 && |u.pages[q].slots| == 255
            && RoomFor(u, right) && AllFit(u)
            && |path| + s.nodes[left].level == Top(s)
  {
    var v := InsertSlot(s, p, left, right);
    var u := ParentSplit(s, p, left, right, q);
    assert NodeFits(s.pages[p]);
    assert |v.pages[p].slots| == 511;
    InsertSlotPublishes(s, p, left, right, right);
    SplitInteriorPublishes(v, p, q, 255, right);
    assert !Published(s, right);
    forall x | ParentOf(u, x, right)
      ensures |u.pages[x].slots| <= 256
    {
    }
    assert AllFit(u);
  }

  lemma SplitComplete(s: Snap, p: PageId, left: PageId, right: PageId, q: PageId, pending: set<PageId>)
    requires Inv(s) && Complete(s, pending) && ParentOf(s, p, left) && left in s.nodes && right in pending && q !in s.nodes
    ensures Complete(ParentSplit(s, p, left, right, q), pending - {right} + {q})
  {
    var v := InsertSlot(s, p, left, right);
    var u := ParentSplit(s, p, left, right, q);
    InsertSlotComplete(s, p, left, right, pending);
    forall c
      ensures c in u.nodes && c !in pending - {right} + {q} ==> c == u.root || Published(u, c)
      ensures c in pending - {right} + {q} ==> c in u.nodes && c != u.root && !Published(u, c)
    {
      assert Published(v, c) || !Published(v, c);
      SplitInteriorPublishes(v, p, q, |v.pages[p].slots| / 2, c);
      if c == q {
        NotPublishedOutside(s, q);
        assert right != q;
        InsertSlotPublishes(s, p, left, right, q);
      }
    }
  }

  lemma NotPublishedOutside(s: Snap, q: PageId)
    requires NodesOk(s) && q !in s.nodes
    ensures !Published(s, q)
  {
    if Published(s, q) {
      var p :| ParentOf(s, p, q);
      ParentLevel(s, p, q);
    }
  }

  lemma SplitPath(s: Snap, u: Snap, path: seq<PageId>, p: PageId, left: PageId, pending: set<PageId>)
    requires RootOk(s) && Extends(s, u) && p in s.nodes && PathOk(s, path, left) && path != []
    requires s.nodes[p].level == s.nodes[left].level + 1
    requires path[|path| - 1] in s.nodes && s.nodes[path[|path| - 1]].low <= s.nodes[p].low
    ensures PathOk(u, path[..|path| - 1], p)
  {
    var up := path[..|path| - 1];
    forall i | 0 <= i < |up|
      ensures PathAt(u, up, p, i)
    {
      LowsAscend(s, path, left, i);
      assert PathAt(s, path, left, i);
      if i + 1 < |up| { assert PathAt(s, path, left, i + 1); }
    }
  }

  lemma {:induction false} LowsAscend(s: Snap, path: seq<PageId>, at: PageId, i: nat)
    requires PathOk(s, path, at) && i < |path|
    ensures path[i] in s.nodes && path[|path| - 1] in s.nodes
    ensures s.nodes[path[i]].low <= s.nodes[path[|path| - 1]].low
    decreases |path| - i
  {
    assert PathAt(s, path, at, i);
    if i + 1 < |path| {
      assert PathAt(s, path, at, i + 1);
      LowsAscend(s, path, at, i + 1);
    }
  }

  /** The cascade above does not disturb what the split below it achieved. */
  lemma CascadeDone(s: Snap, u: Snap, t: Snap, p: PageId, left: PageId, right: PageId, q: PageId, pending: set<PageId>)
    requires Inv(s) && left in s.nodes && Inv(u) && p in u.nodes && right in pending && q !in s.nodes
    requires u.nodes[p].level == s.nodes[left].level + 1
    requires Rows(u) == Rows(s) && Extends(s, u) && KeptBelow(s, u, s.nodes[left].level)
    requires RoomFor(u, right) && Top(u) == Top(s)
    requires right in s.nodes && s.nodes[right].level == s.nodes[left].level
    requires Complete(s, pending)
    requires PublishDone(u, t, p, q, pending - {right} + {q})
    ensures PublishDone(s, t, left, right, pending)
  {
    assert pending - {right} + {q} - {q} == pending - {right} by {
      assert q !in pending by { assert Published(s, q) || !Published(s, q); }
    }
    forall x | ParentOf(t, x, right)
      ensures |t.pages[x].slots| <= 256
    {
      ParentLevel(t, x, right);
      assert ParentOf(u, x, right);
    }
  }

  // --- the root splits -------------------------------------------------------------------------

  lemma OnlyRoot(s: Snap, left: PageId, right: PageId, pending: set<PageId>)
    requires CanPublish(s, [], left, right, pending)
    ensures left == s.root
  {
    if left != s.root {
      assert Published(s, left);
      var p :| ParentOf(s, p, left);
      ParentLevel(s, p, left);
    }
  }

  lemma GrowRootWaits(s: Snap, left: PageId, right: PageId, r: PageId, pending: set<PageId>, c: PageId)
    requires CanPublish(s, [], left, right, pending) && r !in s.nodes && left == s.root
    ensures var t := GrowRoot(s, r, left, right);
            && (c in t.nodes && c !in pending - {right} ==> c == t.root || Published(t, c))
            && (c in pending - {right} ==> c in t.nodes && c != t.root && !Published(t, c))
  {
    assert Published(s, c) || !Published(s, c);
    GrowRootPublishes(s, r, left, right, c);
  }

  lemma GrowRootRoom(s: Snap, left: PageId, right: PageId, r: PageId, pending: set<PageId>)
    requires CanPublish(s, [], left, right, pending) && r !in s.nodes && left == s.root
    ensures RoomFor(GrowRoot(s, r, left, right), right)
  {
    var t := GrowRoot(s, r, left, right);
    assert !Published(s, right);
    forall x | ParentOf(t, x, right)
      ensures |t.pages[x].slots| <= 256
    {
      assert x == r || ParentOf(s, x, right);
    }
  }

  lemma PublishGrows(s: Snap, left: PageId, right: PageId, r: PageId, pending: set<PageId>)
    requires CanPublish(s, [], left, right, pending) && r !in s.nodes
    ensures left == s.root
    ensures PublishDone(s, GrowRoot(s, r, left, right), left, right, pending)
  {
    hide Published, RoomFor, Rows;
    OnlyRoot(s, left, right, pending);
    var t := GrowRoot(s, r, left, right);
    GrowRootKeeps(s, r, right);
    forall c
      ensures c in t.nodes && c !in pending - {right} ==> c == t.root || Published(t, c)
      ensures c in pending - {right} ==> c in t.nodes && c != t.root && !Published(t, c)
    {
      GrowRootWaits(s, left, right, r, pending, c);
    }
    GrowRootRoom(s, left, right, r, pending);
  }

  // --- paths while descending ------------------------------------------------------------------

  lemma LinkAscends(s: Snap, p: PageId)
    requires NodesOk(s) && p in s.nodes && s.pages[p].link.Some?
    ensures var q := s.pages[p].link.value;
            && q in s.nodes && s.nodes[q].level == s.nodes[p].level && s.nodes[p].low < s.nodes[q].low
            && NodesAbove(s, s.nodes[q].low) < NodesAbove(s, s.nodes[p].low)
  {
    assert NodeOk(s, p);
    var q := s.pages[p].link.value;
    assert q in NodesAbove(s, s.nodes[p].low) && q !in NodesAbove(s, s.nodes[q].low);
  }

  lemma PathShifts(s: Snap, path: seq<PageId>, p: PageId, q: PageId)
    requires PathOk(s, path, p) && q in s.nodes
    requires s.nodes[q].level == s.nodes[p].level && s.nodes[p].low <= s.nodes[q].low
    ensures PathOk(s, path, q)
  {
    forall i | 0 <= i < |path|
      ensures PathAt(s, path, q, i)
    {
      assert PathAt(s, path, p, i);
    }
  }

  lemma PathExtends(s: Snap, path: seq<PageId>, p: PageId, child: PageId)
    requires PathOk(s, path, p) && child in s.nodes
    requires s.nodes[child].level + 1 == s.nodes[p].level && s.nodes[p].low <= s.nodes[child].low
    ensures PathOk(s, path + [p], child)
  {
    forall i | 0 <= i < |path| + 1
      ensures PathAt(s, path + [p], child, i)
    {
      if i < |path| { assert PathAt(s, path, p, i); }
      if i + 1 < |path| { assert PathAt(s, path, p, i + 1); }
    }
  }

  lemma SameTreeDone(s: Snap, u: Snap, t: Snap, left: PageId, right: PageId, pending: set<PageId>)
    requires SameTree(s, u) && Inv(s) && Inv(u) && Rows(u) == Rows(s) && left in s.nodes
    requires PublishDone(u, t, left, right, pending)
    ensures PublishDone(s, t, left, right, pending)
  {
  }
}
