/** What every page write of the clustered tree keeps: the B-link invariant, and the rows a tree
    that satisfies it holds. */
module BLinkInvariant {
  import opened Bytes
  import opened BLinkNode

  /** Where a node stands, fixed for as long as it exists: its height above the leaves and the
      least key it may cover. A split moves the upper keys to a new node, so neither changes. */
  datatype Place = Place(level: nat, low: Key)

  /** The store at one moment, with the place of every page that is a tree node, and the pages of
      every overflow chain a stub has named, keyed by the chain's first page. */
  datatype Snap = Snap(pages: map<PageId, Node>, root: PageId,
                       nodes: map<PageId, Place>, chains: map<PageId, seq<PageId>>)

  ghost predicate InRange(n: Node, low: Key, key: Key)
    requires IsNode(n)
  {
    low <= key && !Passed(n, key)
  }

  /** The right sibling of a node starts exactly where the node ends. */
  ghost predicate LinkOk(s: Snap, n: Node, place: Place)
    requires IsNode(n)
  {
    n.link.Some? ==>
      && place.low < n.high
      && n.link.value in s.nodes && s.nodes[n.link.value] == Place(place.level, n.high)
  }

  ghost predicate LeafOk(n: Node, low: Key)
    requires n.Leaf?
  {
    Sorted(n.entries) && forall e :: e in n.entries ==> InRange(n, low, e.key)
  }

  /** The separators ascend within the node's range, and each child stands one level below,
      starting at its lower separator. */
  ghost predicate InteriorOk(s: Snap, n: Node, place: Place)
    requires n.Interior?
  {
    && place.level > 0
    && (forall i, j :: 0 <= i < j < |n.slots| ==> n.slots[i].sep < n.slots[j].sep)
    && (forall i :: 0 <= i < |n.slots| ==> place.low < n.slots[i].sep && !Passed(n, n.slots[i].sep))
    && (forall i {:trigger ChildOk(s, n, place, i)} :: 0 <= i <= |n.slots| ==> ChildOk(s, n, place, i))
  }

  ghost predicate ChildOk(s: Snap, n: Node, place: Place, i: nat)
    requires n.Interior? && i <= |n.slots| && place.level > 0
  {
    Child(n, i) in s.nodes && s.nodes[Child(n, i)] == Place(place.level - 1, ChildLow(n, place.low, i))
  }

  /** Every node has a page, a leaf page exactly at level zero. */
  ghost predicate Typed(s: Snap) {
    forall p :: p in s.nodes ==>
      p in s.pages && (if s.nodes[p].level == 0 then s.pages[p].Leaf? else s.pages[p].Interior?)
  }

  ghost predicate NodeOk(s: Snap, p: PageId)
    requires Typed(s) && p in s.nodes
  {
    && LinkOk(s, s.pages[p], s.nodes[p])
    && (s.nodes[p].level == 0 ==> LeafOk(s.pages[p], s.nodes[p].low))
    && (s.nodes[p].level > 0 ==> InteriorOk(s, s.pages[p], s.nodes[p]))
  }

  /** Two nodes of one level do not overlap: the lower one ends no later than the other starts. */
  ghost predicate Apart(s: Snap, p: PageId, q: PageId)
    requires Typed(s) && p in s.nodes && q in s.nodes
  {
    p != q && s.nodes[p].level == s.nodes[q].level && s.nodes[p].low <= s.nodes[q].low ==>
      Passed(s.pages[p], s.nodes[q].low)
  }

  ghost predicate NodesOk(s: Snap) {
    && Typed(s)
    && (forall p {:trigger NodeOk(s, p)} :: p in s.nodes ==> NodeOk(s, p))
    && (forall p, q {:trigger Apart(s, p, q)} :: p in s.nodes && q in s.nodes ==> Apart(s, p, q))
  }

  /** The root stands above every other node and covers the lowest keys. */
  ghost predicate RootOk(s: Snap) {
    s.root in s.nodes && s.nodes[s.root].low == 0 &&
    forall p :: p in s.nodes ==> s.nodes[p].level <= s.nodes[s.root].level
  }

  ghost predicate Inv(s: Snap) {
    NodesOk(s) && RootOk(s)
  }

  // --- the rows ----------------------------------------------------------------------------

  ghost predicate HasEntry(s: Snap, e: Entry) {
    exists p :: EntryIn(s, p, e)
  }

  ghost predicate EntryIn(s: Snap, p: PageId, e: Entry) {
    p in s.nodes && p in s.pages && s.pages[p].Leaf? && e in s.pages[p].entries
  }

  ghost function RowKeys(s: Snap): set<Key> {
    set p, e | p in s.nodes && p in s.pages && s.pages[p].Leaf? && e in s.pages[p].entries :: e.key
  }

  /** The rows the tree holds: each row id with its leaf entry. */
  ghost function Rows(s: Snap): map<Key, Entry> {
    map k | k in RowKeys(s) :: EntryFor(s, k)
  }

  ghost function EntryFor(s: Snap, k: Key): (e: Entry)
    requires k in RowKeys(s)
    ensures HasEntry(s, e) && e.key == k
  {
    var p, f :| p in s.nodes && p in s.pages && s.pages[p].Leaf? && f in s.pages[p].entries && f.key == k;
    assert EntryIn(s, p, f);
    f
  }

  ghost function RowAt(s: Snap, k: Key): Option<Entry> {
    if k in Rows(s) then Some(Rows(s)[k]) else None
  }

  /** The leaf whose range contains a key is the only place an entry for that key can be. */
  lemma OneLeaf(s: Snap, p: PageId, e: Entry)
    requires NodesOk(s)
    requires p in s.nodes && s.nodes[p].level == 0 && InRange(s.pages[p], s.nodes[p].low, e.key)
    ensures HasEntry(s, e) <==> e in s.pages[p].entries
  {
    if HasEntry(s, e) {
      var q :| EntryIn(s, q, e);
      assert NodeOk(s, q) && NodeOk(s, p);
      assert InRange(s.pages[q], s.nodes[q].low, e.key);
      assert Apart(s, p, q) && Apart(s, q, p);
    }
    if e in s.pages[p].entries {
      assert NodeOk(s, p);
      assert EntryIn(s, p, e);
    }
  }

  lemma EntriesUnique(s: Snap, e: Entry, f: Entry)
    requires NodesOk(s) && HasEntry(s, e) && HasEntry(s, f) && e.key == f.key
    ensures e == f
  {
    var p :| EntryIn(s, p, e);
    assert NodeOk(s, p);
    OneLeaf(s, p, e);
    OneLeaf(s, p, f);
  }

  lemma RowsHold(s: Snap, e: Entry)
    requires NodesOk(s)
    ensures HasEntry(s, e) <==> RowAt(s, e.key) == Some(e)
  {
    if HasEntry(s, e) {
      var p :| EntryIn(s, p, e);
      assert e.key in RowKeys(s);
      var f := Rows(s)[e.key];
      assert HasEntry(s, f) && f.key == e.key;
      EntriesUnique(s, e, f);
    } else if e.key in RowKeys(s) {
      var p, f :| p in s.nodes && p in s.pages && s.pages[p].Leaf? && f in s.pages[p].entries && f.key == e.key;
      assert EntryIn(s, p, f);
      var g := Rows(s)[e.key];
      assert HasEntry(s, g);
    }
  }

  /** Searching the leaf whose range contains `k` finds exactly the row the tree holds. */
  lemma {:induction false} FindInLeaf(s: Snap, p: PageId, k: Key)
    requires NodesOk(s)
    requires p in s.nodes && s.nodes[p].level == 0 && InRange(s.pages[p], s.nodes[p].low, k)
    ensures Find(s.pages[p].entries, k) == RowAt(s, k)
  {
    var es := s.pages[p].entries;
    assert NodeOk(s, p);
    FindSound(es, k);
    match Find(es, k)
    case Some(e) =>
      OneLeaf(s, p, e);
      RowsHold(s, e);
    case None =>
      if k in Rows(s) {
        var f := Rows(s)[k];
        RowsHasEntry(s, k);
        OneLeaf(s, p, f);
      }
  }

  lemma RowsHasEntry(s: Snap, k: Key)
    requires NodesOk(s) && k in Rows(s)
    ensures HasEntry(s, Rows(s)[k]) && Rows(s)[k].key == k
  {
    var p, f :| p in s.nodes && p in s.pages && s.pages[p].Leaf? && f in s.pages[p].entries && f.key == k;
    assert EntryIn(s, p, f);
    RowsHold(s, f);
  }

  lemma SameRowAt(s: Snap, t: Snap, k: Key)
    requires NodesOk(s) && NodesOk(t)
    requires forall e :: HasEntry(s, e) <==> HasEntry(t, e)
    ensures RowAt(s, k) == RowAt(t, k)
  {
    hide NodesOk, HasEntry, Rows;
    if k in Rows(s) { RowsHasEntry(s, k); RowsHold(t, Rows(s)[k]); }
    else if k in Rows(t) { RowsHasEntry(t, k); RowsHold(s, Rows(t)[k]); }
  }

  /** Rows that agree under every row id are equal. */
  lemma RowsEqual(m: map<Key, Entry>, n: map<Key, Entry>)
    requires forall k :: (k in m <==> k in n) && (k in m ==> m[k] == n[k])
    ensures m == n
  {}

  /** Trees with the same entries hold the same rows. */
  lemma SameRows(s: Snap, t: Snap)
    requires NodesOk(s) && NodesOk(t)
    requires forall e :: HasEntry(s, e) <==> HasEntry(t, e)
    ensures Rows(s) == Rows(t)
  {
    hide NodesOk, HasEntry, Rows;
    forall k
      ensures (k in Rows(s) <==> k in Rows(t)) && (k in Rows(s) ==> Rows(s)[k] == Rows(t)[k])
    {
      SameRowAt(s, t, k);
    }
    RowsEqual(Rows(s), Rows(t));
  }
}
