/** A row lost, from an empty tree on: three inserts and one update. */
module BLinkLoss {
  import opened Bytes
  import opened BLinkNode
  import opened BLinkInvariant
  import opened BLinkSplit
  import opened BLinkPublish
  import opened BLinkPacking
  import opened BLinkChain
  import opened BLinkLeafWrite
  import opened BLinkRows
  import opened BLinkMoments
  import opened BLinkOps
  import opened BLinkTree

  /** A tree of one leaf, its root. */
  ghost predicate SoleLeaf(s: Snap) { s.root == 0 && s.nodes == map[0 := Place(0, 0)] }

  /** An inline entry for each of the row ids `1..n`. */
  ghost function EntriesOf(table: map<Key, seq<byte>>, n: nat): seq<Entry>
    requires n < INF_KEY && forall k: Key {:trigger k in table} :: 1 <= k <= n ==> k in table
  {
    seq(n, i requires 0 <= i < n => Entry(i + 1, table[i + 1], false))
  }

  lemma FirstIn(es: seq<Entry>)
    ensures es != [] ==> es[0] in es
  {
  }

  lemma {:induction false} SortedOnce(es: seq<Entry>, fs: seq<Entry>)
    requires Sorted(es) && Sorted(fs)
    requires forall e {:trigger e in es} {:trigger e in fs} :: e in es <==> e in fs
    ensures es == fs
    decreases |es|
  {
    FirstIn(es);
    FirstIn(fs);
    if es != [] && fs != [] {
      assert es[0] in fs;
      assert fs[0] in fs && fs[0] in es;
      assert es[0] == fs[0];
      forall e ensures e in es[1..] <==> e in fs[1..] {
        if e in es[1..] { assert e in es && e != es[0]; }
        if e in fs[1..] { assert e in fs && e != fs[0]; }
      }
      SortedOnce(es[1..], fs[1..]);
    }
  }

  lemma LeafRow(s: Snap, e: Entry)
    requires Inv(s) && StubsOk(s) && EntryIn(s, 0, e)
    ensures e.key in Table(s)
    ensures |Table(s)[e.key]| <= MAX_TUPLE ==> e == Entry(e.key, Table(s)[e.key], false)
  {
    hide Rows;
    RowsHold(s, e);
    assert StubOk(s, Rows(s)[e.key]);
  }

  lemma RowInLeaf(s: Snap, k: Key)
    requires Inv(s) && StubsOk(s) && SoleLeaf(s) && k in Table(s) && |Table(s)[k]| <= MAX_TUPLE
    ensures EntryIn(s, 0, Entry(k, Table(s)[k], false))
  {
    hide Rows;
    RowsHasEntry(s, k);
    LeafRow(s, Rows(s)[k]);
  }

  /** Such a leaf holds the table's rows, inline while they are short. */
  lemma SoleLeafHolds(s: Snap, n: nat)
    requires Inv(s) && StubsOk(s) && SoleLeaf(s) && n < INF_KEY
    requires forall k: Key {:trigger k in Table(s)} :: k in Table(s) <==> 1 <= k <= n
    requires forall k: Key {:trigger k in Table(s)} :: k in Table(s) ==> |Table(s)[k]| <= MAX_TUPLE
    ensures 0 in s.pages && s.pages[0].Leaf? && s.pages[0].entries == EntriesOf(Table(s), n)
  {
    hide Table, StubsOk;
    assert NodeOk(s, 0);
    var es, fs := s.pages[0].entries, EntriesOf(Table(s), n);
    forall e | e in es ensures e in fs {
      LeafRow(s, e);
      assert e == fs[e.key - 1];
    }
    forall e | e in fs ensures e in es {
      RowInLeaf(s, e.key);
    }
    SortedOnce(es, fs);
  }

  // --- the three rows --------------------------------------------------------------------------

  function RowOf(k: Key): seq<byte> { Zeros(if k == 2 then 10 else 4000) }

  /** The first `n` of three rows, of 4000, 10 and 4000 bytes. */
  ghost function FirstRows(n: nat): map<Key, seq<byte>>
    requires n < INF_KEY
  {
    map k: Key | 1 <= k <= n :: RowOf(k)
  }

  lemma FirstRowsHeld(s: Snap, n: nat)
    requires Inv(s) && StubsOk(s) && Complete(s, {}) && SoleLeaf(s) && n <= 3 && Table(s) == FirstRows(n)
    ensures 0 in s.pages && s.pages[0].Leaf? && s.pages[0].entries == ThreeEntries(10)[..n]
  {
    hide Table, Inv, Complete, StubsOk;
    SoleLeafHolds(s, n);
    assert EntriesOf(Table(s), n) == ThreeEntries(10)[..n];
  }

  /** Each of the three rows fits the leaf with those before it. */
  lemma NextFits(s: Snap, n: nat)
    requires Inv(s) && StubsOk(s) && Complete(s, {}) && SoleLeaf(s) && n < 3 && Table(s) == FirstRows(n)
    ensures LeafFits(LeafWith(s, n + 1, RowOf(n + 1)))
  {
    hide Table, Inv, Complete, StubsOk, LeafWith, TotalSize, Put;
    FirstRowsHeld(s, n);
    var k: Key := n + 1;
    RootLeafOwns(s, k, RowOf(k));
    var es := ThreeEntries(10);
    assert Sketch(k, RowOf(k)) == es[n];
    PutInserts(es[..n], n, es[n]);
    assert Inserted(es[..n], n, es[n]) == es[..k];
    assert es == es[..k] + es[k..];
    TotalConcat(es[..k], es[k..]);
    ThreeTotal(10);
  }

  lemma MiddleTriples(s: Snap)
    requires Inv(s) && StubsOk(s) && Complete(s, {}) && SoleLeaf(s) && Table(s) == FirstRows(3)
    ensures 2 in Table(s) && Triples(s, 2, Zeros(8000))
    ensures Pack(LeafWith(s, 2, Zeros(8000)), [])[1] != [] && Pack(LeafWith(s, 2, Zeros(8000)), [])[1][0].key == 2
  {
    hide Table, Inv, Complete, StubsOk, LeafWith, TotalSize, Put, Pack;
    FirstRowsHeld(s, 3);
    assert ThreeEntries(10)[..3] == ThreeEntries(10);
    RootLeafOwns(s, 2, Zeros(8000));
    ThreePut();
  }

  /** Insert one of the three rows. */
  method InsertNext(tree: ClusteredTree, n: nat) returns (done: bool)
    requires tree.Ready() && SoleLeaf(tree.Now()) && n < 3 && Table(tree.Now()) == FirstRows(n)
    modifies tree
    ensures done ==> tree.Ready() && SoleLeaf(tree.Now()) && Table(tree.Now()) == FirstRows(n + 1)
    ensures done <==> tree.faults == old(tree.faults)
  {
    hide Recorded, AllFit, Complete, Accounted, Table, StubsOk, Inv, LeafWith, LeafFits, LosesFirst, AnswersAs;
    RecordedNow(tree.trace, tree.Now());
    NextFits(tree.Now(), n);
    var st := tree.Insert(n + 1, RowOf(n + 1));
    assert FirstRows(n)[n + 1 := RowOf(n + 1)] == FirstRows(n + 1);
    done := st.Done?;
  }

  /** From an empty tree: rows 1, 2 and 3 are inserted and row 2 is made longer. All four calls answer
      that they are done unless a page access fails, and then a lookup of row 1 comes back empty. */
  method LoseRow() returns (tree: ClusteredTree, done: bool)
    ensures done ==> LooksUp(tree.Now(), 1, None)
    ensures done <==> tree.faults == 0
  {
    hide Recorded, AllFit, Complete, Accounted, Table, StubsOk, Inv, LeafWith, LeafFits, AnswersAs, Pack, LooksUp, Triples;
    tree := new ClusteredTree();
    assert FirstRows(0) == map[];
    done := false;
    for n := 0 to 3
      invariant tree.faults == 0
      invariant fresh(tree) && tree.Ready() && SoleLeaf(tree.Now()) && Table(tree.Now()) == FirstRows(n)
    {
      var ok := InsertNext(tree, n);
      if !ok { return; }
    }
    RecordedNow(tree.trace, tree.Now());
    MiddleTriples(tree.Now());
    var st, dropped := tree.Update(2, Zeros(8000));
    done := st.Done?;
  }
}
