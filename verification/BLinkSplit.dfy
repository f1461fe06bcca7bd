/** The whole effect of writing an overflowing leaf: its entries spread over the leaf itself and
    its new right siblings, which become reachable together when the leaf is rewritten. */
module BLinkSplit {
  import opened Bytes
  import opened Distinctness
  import opened BLinkNode
  import opened BLinkInvariant
  import opened BLinkReader
  import opened BLinkSteps
  import opened BLinkPacking

  /** The `i`-th leaf of a split: it links to the next one, or takes over the old link. */
  function ChunkLeaf(ids: seq<PageId>, chunks: seq<seq<Entry>>, link: Option<PageId>, high: Key, i: nat): Node
    requires |ids| == |chunks| && i < |chunks|
  {
    if i + 1 < |chunks| then
      Leaf(Some(ids[i + 1]), if chunks[i + 1] == [] then INF_KEY else chunks[i + 1][0].key, chunks[i])
    else
      Leaf(link, high, chunks[i])
  }

  lemma ChunkIsLeaf(ids: seq<PageId>, chunks: seq<seq<Entry>>, link: Option<PageId>, high: Key, i: nat)
    requires |ids| == |chunks| && i < |chunks|
    ensures ChunkLeaf(ids, chunks, link, high, i).Leaf?
  {
  }

  ghost predicate AllNonEmpty(chunks: seq<seq<Entry>>) {
    forall i :: 0 <= i < |chunks| ==> chunks[i] != []
  }

  /** Leaf `ids[0]`, which holds all of `chunks`, split into `ids`, the last chunk first. */
  ghost function SplitAll(s: Snap, ids: seq<PageId>, chunks: seq<seq<Entry>>): Snap
    requires |ids| == |chunks| > 0 && AllNonEmpty(chunks)
    requires ids[0] in s.pages && s.pages[ids[0]].Leaf?
    decreases |ids|
  {
    var m := |ids| - 1;
    if m == 0 then s
    else
      SplitAll(SplitLeaf(s, ids[0], ids[m], Flatten(chunks[..m]), chunks[m]), ids[..m], chunks[..m])
  }

  ghost predicate Splittable(s: Snap, ids: seq<PageId>, chunks: seq<seq<Entry>>) {
    && |ids| == |chunks| > 0 && AllNonEmpty(chunks) && Distinct(ids)
    && Inv(s) && ids[0] in s.nodes && s.nodes[ids[0]].level == 0
    && s.pages[ids[0]].entries == Flatten(chunks)
    && (forall i :: 0 < i < |ids| ==> ids[i] !in s.nodes)
  }

  lemma SplitLastKeeps(s: Snap, ids: seq<PageId>, chunks: seq<seq<Entry>>)
    requires Splittable(s, ids, chunks) && |ids| > 1
    ensures var m := |ids| - 1;
            var t := SplitLeaf(s, ids[0], ids[m], Flatten(chunks[..m]), chunks[m]);
            && Splittable(t, ids[..m], chunks[..m]) && Rows(t) == Rows(s) && Extends(s, t)
  {
    var m := |ids| - 1;
    FlattenLast(chunks);
    var front := chunks[..m];
    assert front[0] == chunks[0];
    assert Flatten(front) == front[0] + Flatten(front[1..]);
    SplitLeafKeeps(s, ids[0], ids[m], Flatten(front), chunks[m]);
    SplitLeafRows(s, ids[0], ids[m], Flatten(front), chunks[m]);
  }

  /** The split as a whole keeps the invariant and every row. */
  lemma {:induction false} SplitAllKeeps(s: Snap, ids: seq<PageId>, chunks: seq<seq<Entry>>)
    requires Splittable(s, ids, chunks)
    ensures var t := SplitAll(s, ids, chunks);
            Inv(t) && Rows(t) == Rows(s) && Extends(s, t) && t.root == s.root && t.chains == s.chains
    decreases |ids|
  {
    var m := |ids| - 1;
    if m > 0 {
      var u := SplitLeaf(s, ids[0], ids[m], Flatten(chunks[..m]), chunks[m]);
      SplitLastKeeps(s, ids, chunks);
      SplitAllKeeps(u, ids[..m], chunks[..m]);
    }
  }

  /** The pages the split ends with. */
  ghost predicate SplitPages(pages: map<PageId, Node>, after: map<PageId, Node>, ids: seq<PageId>,
                             chunks: seq<seq<Entry>>, link: Option<PageId>, high: Key)
    requires |ids| == |chunks|
  {
    && (forall i :: 0 <= i < |ids| ==> ids[i] in after && after[ids[i]] == ChunkLeaf(ids, chunks, link, high, i))
    && (forall x :: x !in ids ==> SamePage(pages, after, x))
  }

  ghost predicate SamePage(pages: map<PageId, Node>, after: map<PageId, Node>, x: PageId) {
    (x in after <==> x in pages) && (x in pages ==> after[x] == pages[x])
  }

  /** The places the new siblings take. */
  ghost predicate SplitPlaces(nodes: map<PageId, Place>, after: map<PageId, Place>, ids: seq<PageId>,
                              chunks: seq<seq<Entry>>)
    requires |ids| == |chunks| > 0 && AllNonEmpty(chunks)
  {
    && (forall i :: 1 <= i < |ids| ==> ids[i] in after && after[ids[i]] == Place(0, chunks[i][0].key))
    && (forall x :: x !in ids[1..] ==> SamePlace(nodes, after, x))
  }

  ghost predicate SamePlace(nodes: map<PageId, Place>, after: map<PageId, Place>, x: PageId) {
    (x in after <==> x in nodes) && (x in nodes ==> after[x] == nodes[x])
  }

  lemma {:induction false} SplitAllPages(s: Snap, ids: seq<PageId>, chunks: seq<seq<Entry>>)
    requires |ids| == |chunks| > 0 && AllNonEmpty(chunks) && Distinct(ids)
    requires ids[0] in s.pages && s.pages[ids[0]].Leaf? && s.pages[ids[0]].entries == Flatten(chunks)
    ensures SplitPages(s.pages, SplitAll(s, ids, chunks).pages, ids, chunks, s.pages[ids[0]].link, s.pages[ids[0]].high)
    decreases |ids|
  {
    var m := |ids| - 1;
    var n := s.pages[ids[0]];
    if m == 0 {
      assert chunks[1..] == [];
      assert Flatten(chunks) == chunks[0] + [];
    } else {
      var front, cs := ids[..m], chunks[..m];
      var u := SplitLeaf(s, ids[0], ids[m], Flatten(cs), chunks[m]);
      SplitAllPages(u, front, cs);
      var after := SplitAll(u, front, cs).pages;
      forall i | 0 <= i < |ids|
        ensures ids[i] in after && after[ids[i]] == ChunkLeaf(ids, chunks, n.link, n.high, i)
      {
        if i < m {
          assert front[i] == ids[i];
          ChunkLeafFront(ids, chunks, n.link, n.high, i);
        } else {
          assert ids[m] !in front;
          assert SamePage(u.pages, after, ids[m]);
        }
      }
      forall x | x !in ids
        ensures SamePage(s.pages, after, x)
      {
        assert x !in front && x != ids[m] && x != ids[0];
        assert SamePage(u.pages, after, x);
      }
    }
  }

  lemma ChunkLeafFront(ids: seq<PageId>, chunks: seq<seq<Entry>>, link: Option<PageId>, high: Key, i: nat)
    requires |ids| == |chunks| && i < |ids| - 1 && AllNonEmpty(chunks)
    ensures var m := |ids| - 1;
            ChunkLeaf(ids[..m], chunks[..m], Some(ids[m]), chunks[m][0].key, i) == ChunkLeaf(ids, chunks, link, high, i)
  {
  }

  lemma {:induction false} SplitAllPlaces(s: Snap, ids: seq<PageId>, chunks: seq<seq<Entry>>)
    requires |ids| == |chunks| > 0 && AllNonEmpty(chunks) && Distinct(ids)
    requires ids[0] in s.pages && s.pages[ids[0]].Leaf?
    ensures SplitPlaces(s.nodes, SplitAll(s, ids, chunks).nodes, ids, chunks)
    decreases |ids|
  {
    var m := |ids| - 1;
    if m > 0 {
      var front, cs := ids[..m], chunks[..m];
      var u := SplitLeaf(s, ids[0], ids[m], Flatten(cs), chunks[m]);
      SplitAllPlaces(u, front, cs);
      var after := SplitAll(u, front, cs).nodes;
      assert ids[m] !in front[1..];
      assert SamePlace(u.nodes, after, ids[m]);
      forall i | 1 <= i < |ids|
        ensures ids[i] in after && after[ids[i]] == Place(0, chunks[i][0].key)
      {
        if i < m { assert front[i] == ids[i] && cs[i] == chunks[i]; }
      }
      forall x | x !in ids[1..]
        ensures SamePlace(s.nodes, after, x)
      {
        assert ids[1..][m - 1] == ids[m];
        assert forall y :: y in front[1..] ==> y in ids[1..];
        assert SamePlace(u.nodes, after, x);
      }
    }
  }

  // --- the entries of one leaf after one change ----------------------------------------------

  function Inserted(es: seq<Entry>, at: nat, e: Entry): seq<Entry>
    requires at <= |es|
  {
    es[..at] + [e] + es[at..]
  }

  function Removed(es: seq<Entry>, at: nat): seq<Entry>
    requires at < |es|
  {
    es[..at] + es[at + 1..]
  }

  /** A key outside the changed entry is found as before. */
  lemma {:induction false} FindApart(es: seq<Entry>, fs: seq<Entry>, k: Key)
    requires Sorted(es) && Sorted(fs)
    requires forall e: Entry :: e.key == k ==> (e in es <==> e in fs)
    ensures Find(es, k) == Find(fs, k)
  {
    FindSound(es, k);
    FindSound(fs, k);
  }

  /** A leaf changed only under `k`, so the tree's rows change only under `k`. */
  lemma {:induction false} RewriteOneRow(s: Snap, p: PageId, es: seq<Entry>, k: Key)
    requires Inv(s) && p in s.nodes && s.nodes[p].level == 0
    requires InRange(s.pages[p], s.nodes[p].low, k)
    requires LeafOk(s.pages[p].(entries := es), s.nodes[p].low)
    requires forall e: Entry :: e.key != k ==> (e in s.pages[p].entries <==> e in es)
    ensures var t := Rewrite(s, p, es);
            && Inv(t) && Extends(s, t)
            && Rows(t) == match Find(es, k) { case Some(e) => Rows(s)[k := e] case None => Rows(s) - {k} }
  {
    hide Rows, Find, LeafOk;
    var t := Rewrite(s, p, es);
    RewriteKeeps(s, p, es);
    var m := match Find(es, k) { case Some(e) => Rows(s)[k := e] case None => Rows(s) - {k} };
    forall j
      ensures RowAt(t, j) == if j == k then Find(es, k) else RowAt(s, j)
    {
      RewriteRowApart(s, p, es, k, j);
    }
    forall j
      ensures (j in Rows(t) <==> j in m) && (j in Rows(t) ==> Rows(t)[j] == m[j])
    {
      assert RowAt(t, j) == if j == k then Find(es, k) else RowAt(s, j);
    }
    RowsEqual(Rows(t), m);
  }

  lemma {:induction false} RewriteRowApart(s: Snap, p: PageId, es: seq<Entry>, k: Key, j: Key)
    requires Inv(s) && p in s.nodes && s.nodes[p].level == 0
    requires InRange(s.pages[p], s.nodes[p].low, k)
    requires LeafOk(s.pages[p].(entries := es), s.nodes[p].low)
    requires forall e: Entry :: e.key != k ==> (e in s.pages[p].entries <==> e in es)
    ensures RowAt(Rewrite(s, p, es), j) == if j == k then Find(es, k) else RowAt(s, j)
  {
    RewriteRow(s, p, es, j);
    if j != k && InRange(s.pages[p], s.nodes[p].low, j) {
      assert NodeOk(s, p);
      FindApart(s.pages[p].entries, es, j);
      FindInLeaf(s, p, j);
    }
  }

  lemma InsertedEntries(n: Node, low: Key, at: nat, e: Entry)
    requires n.Leaf? && LeafOk(n, low) && InRange(n, low, e.key)
    requires IsPosition(n.entries, e.key, at) && !FoundAt(n.entries, e.key, at)
    ensures LeafOk(n.(entries := Inserted(n.entries, at, e)), low)
    ensures Find(Inserted(n.entries, at, e), e.key) == Some(e)
    ensures forall f: Entry :: f.key != e.key ==> (f in n.entries <==> f in Inserted(n.entries, at, e))
  {
    var es := Inserted(n.entries, at, e);
    assert n.entries == n.entries[..at] + n.entries[at..];
    assert forall f :: f in es <==> f == e || f in n.entries;
    InsertedSorted(n.entries, at, e);
    assert es[at] == e;
    FindSound(es, e.key);
  }

  lemma InsertedSorted(es: seq<Entry>, at: nat, e: Entry)
    requires Sorted(es) && IsPosition(es, e.key, at) && !FoundAt(es, e.key, at)
    ensures Sorted(Inserted(es, at, e))
  {
    var fs := Inserted(es, at, e);
    forall i | 0 <= i < |fs|
      ensures fs[i] == if i < at then es[i] else if i == at then e else es[i - 1]
    {}
  }

  lemma UpdatedEntries(n: Node, low: Key, at: nat, e: Entry)
    requires n.Leaf? && LeafOk(n, low) && FoundAt(n.entries, e.key, at)
    ensures LeafOk(n.(entries := n.entries[at := e]), low)
    ensures Find(n.entries[at := e], e.key) == Some(e)
    ensures forall f: Entry :: f.key != e.key ==> (f in n.entries <==> f in n.entries[at := e])
  {
    var es := n.entries[at := e];
    forall f: Entry | f.key != e.key
      ensures f in n.entries <==> f in es
    {
      if f in n.entries { var i :| 0 <= i < |n.entries| && n.entries[i] == f; assert es[i] == f; }
      if f in es { var i :| 0 <= i < |es| && es[i] == f; assert n.entries[i] == f; }
    }
    assert n.entries[at] in n.entries;
    forall f | f in es
      ensures InRange(n, low, f.key)
    {}
    assert es[at] == e;
    FindSound(es, e.key);
  }

  lemma RemovedMembers(es: seq<Entry>, at: nat, f: Entry)
    requires Sorted(es) && at < |es|
    ensures f in Removed(es, at) <==> f in es && f.key != es[at].key
  {
    var rest := Removed(es, at);
    if f in rest {
      var i :| 0 <= i < |rest| && rest[i] == f;
      assert f == es[if i < at then i else i + 1];
    }
    if f in es && f.key != es[at].key {
      var i :| 0 <= i < |es| && es[i] == f;
      assert f == rest[if i < at then i else i - 1];
    }
  }

  lemma {:induction false} RemovedEntries(n: Node, low: Key, at: nat, k: Key)
    requires n.Leaf? && LeafOk(n, low) && FoundAt(n.entries, k, at)
    ensures LeafOk(n.(entries := Removed(n.entries, at)), low)
    ensures Find(Removed(n.entries, at), k) == None
    ensures forall f: Entry :: f.key != k ==> (f in n.entries <==> f in Removed(n.entries, at))
  {
    hide Removed;
    var es := Removed(n.entries, at);
    forall f: Entry ensures f in es <==> f in n.entries && f.key != k { RemovedMembers(n.entries, at, f); }
    RemovedSorted(n.entries, at);
    FindSound(es, k);
  }

  lemma RemovedSorted(es: seq<Entry>, at: nat)
    requires Sorted(es) && at < |es|
    ensures Sorted(Removed(es, at))
  {
    var fs := Removed(es, at);
    forall i | 0 <= i < |fs|
      ensures fs[i] == es[if i < at then i else i + 1]
    {}
  }
}
