/** Walks over whole levels of the clustered tree: what a scan has delivered and which pages a
    page walk has named after each node. */
module BLinkWalks {
  import opened Bytes
  import opened Distinctness
  import opened BLinkNode
  import opened BLinkInvariant
  import opened BLinkReader
  import opened BLinkSteps
  import opened BLinkSplit
  import opened BLinkChain
  import opened BLinkPublish
  import opened BLinkRows
  import opened BLinkMoments

  // --- scans -----------------------------------------------------------------------------------

  /** `es` has exactly the tree's rows with row ids from `start` up to `end` (all of them when
      there is no end), in ascending order. */
  ghost predicate Scanned(s: Snap, es: seq<Entry>, start: Key, end: Option<Key>) {
    && Sorted(es)
    && (forall e :: e in es ==> start <= e.key && (end.Some? ==> e.key < end.value))
    && (forall k {:trigger RowAt(s, k)} :: start <= k && (end.Some? ==> k < end.value) ==> Find(es, k) == RowAt(s, k))
  }

  lemma SortedConcat(es: seq<Entry>, fs: seq<Entry>, at: Key)
    requires Sorted(es) && Sorted(fs)
    requires (forall e :: e in es ==> e.key < at) && (forall f :: f in fs ==> at <= f.key)
    ensures Sorted(es + fs)
  {
    forall i, j | 0 <= i < j < |es + fs|
      ensures (es + fs)[i].key < (es + fs)[j].key
    {
      if i < |es| <= j { assert es[i] in es && fs[j - |es|] in fs; }
    }
  }

  /** Appending a leaf's entries carries a scan to the end of that leaf. */
  lemma ScanLeaf(s: Snap, es: seq<Entry>, start: Key, p: PageId)
    requires Inv(s) && p in s.nodes && s.nodes[p].level == 0 && start <= s.nodes[p].low
    requires Scanned(s, es, start, Some(s.nodes[p].low))
    ensures var n := s.pages[p];
            Scanned(s, es + n.entries, start, if n.link.Some? then Some(n.high) else None)
  {
    var n := s.pages[p];
    assert NodeOk(s, p);
    var end := if n.link.Some? then Some(n.high) else None;
    SortedConcat(es, n.entries, s.nodes[p].low);
    forall k | start <= k && (end.Some? ==> k < end.value)
      ensures Find(es + n.entries, k) == RowAt(s, k)
    {
      FindConcat(es, n.entries, k);
      FindSound(es, k);
      if k >= s.nodes[p].low { FindInLeaf(s, p, k); }
      else { FindSound(n.entries, k); }
    }
  }

  /** The first leaf of a scan from `start` contributes its entries from `start` on. */
  lemma ScanFirst(s: Snap, start: Key, p: PageId, at: nat)
    requires Inv(s) && p in s.nodes && s.nodes[p].level == 0 && InRange(s.pages[p], s.nodes[p].low, start)
    requires IsPosition(s.pages[p].entries, start, at)
    ensures var n := s.pages[p];
            Scanned(s, n.entries[at..], start, if n.link.Some? then Some(n.high) else None)
  {
    var n := s.pages[p];
    assert NodeOk(s, p);
    var fs := n.entries[at..];
    assert n.entries == n.entries[..at] + fs;
    forall k | start <= k && !Passed(n, k)
      ensures Find(fs, k) == RowAt(s, k)
    {
      FindInLeaf(s, p, k);
      FindSound(n.entries[..at], k);
      FindConcat(n.entries[..at], fs, k);
      assert forall e :: e in n.entries[..at] ==> e.key < start;
    }
  }

  /** The rows of a scan with their values: ascending, and exactly the table from `start` on. */
  ghost predicate Lists(out: seq<(Key, seq<byte>)>, table: map<Key, seq<byte>>, start: Key) {
    && (forall i, j :: 0 <= i < j < |out| ==> out[i].0 < out[j].0)
    && (forall i :: 0 <= i < |out| ==> start <= out[i].0 && out[i].0 in table && table[out[i].0] == out[i].1)
    && (forall k :: k in table && start <= k ==> exists i :: 0 <= i < |out| && out[i].0 == k)
  }

  lemma ScanLists(s: Snap, es: seq<Entry>, out: seq<(Key, seq<byte>)>, start: Key)
    requires NodesOk(s) && Scanned(s, es, start, None) && |out| == |es|
    requires forall i :: 0 <= i < |es| ==> out[i] == (es[i].key, ValueOf(s, es[i]))
    ensures Lists(out, Table(s), start)
  {
    hide NodesOk, Rows;
    forall i | 0 <= i < |out|
      ensures start <= out[i].0 && out[i].0 in Table(s) && Table(s)[out[i].0] == out[i].1
    {
      FindSound(es, es[i].key);
      assert es[i] in es;
      assert RowAt(s, es[i].key) == Some(es[i]);
    }
    forall k | k in Table(s) && start <= k
      ensures exists i :: 0 <= i < |out| && out[i].0 == k
    {
      FindSound(es, k);
      assert RowAt(s, k).Some?;
      var i :| 0 <= i < |es| && es[i] == Find(es, k).value;
      assert out[i].0 == k;
    }
  }

  /** Entries a scan delivers are the tree's own. */
  lemma ScannedRow(s: Snap, es: seq<Entry>, start: Key, i: nat)
    requires Scanned(s, es, start, None) && i < |es|
    ensures es[i].key in Rows(s) && Rows(s)[es[i].key] == es[i]
  {
    hide Rows;
    FindSound(es, es[i].key);
    assert es[i] in es;
    assert RowAt(s, es[i].key) == Some(es[i]);
  }

  // --- page walks ------------------------------------------------------------------------------

  /** The nodes a level-by-level walk has passed when it stands before node `at`. */
  ghost function PassedNodes(s: Snap, at: PageId): set<PageId>
    requires at in s.nodes
  {
    set x | x in s.nodes &&
            (s.nodes[x].level > s.nodes[at].level
             || (s.nodes[x].level == s.nodes[at].level && s.nodes[x].low < s.nodes[at].low))
  }

  lemma PassNode(s: Snap, at: PageId)
    requires NodesOk(s) && at in s.nodes
    ensures at !in PassedNodes(s, at)
    ensures s.pages[at].link.Some? ==>
              s.pages[at].link.value in s.nodes && PassedNodes(s, s.pages[at].link.value) == PassedNodes(s, at) + {at}
  {
    assert NodeOk(s, at);
    if s.pages[at].link.Some? {
      var q := s.pages[at].link.value;
      forall x | x in s.nodes
        ensures x in PassedNodes(s, q) <==> x in PassedNodes(s, at) + {at}
      {
        assert Apart(s, at, x) && Apart(s, x, at) && NodeOk(s, x);
      }
    }
  }

  /** After the last node of a level comes the first child of its first node. */
  lemma PassLevel(s: Snap, head: PageId, at: PageId)
    requires NodesOk(s) && head in s.nodes && s.nodes[head].low == 0 && s.nodes[head].level > 0
    requires at in s.nodes && s.nodes[at].level == s.nodes[head].level && s.pages[at].link.None?
    ensures var c := Child(s.pages[head], 0);
            && c in s.nodes && s.nodes[c].low == 0 && s.nodes[c].level + 1 == s.nodes[head].level
            && PassedNodes(s, c) == PassedNodes(s, at) + {at}
  {
    assert NodeOk(s, head);
    assert ChildOk(s, s.pages[head], s.nodes[head], 0);
    forall x | x in s.nodes && s.nodes[x].level == s.nodes[at].level && x != at
      ensures s.nodes[x].low < s.nodes[at].low
    {
      assert Apart(s, at, x);
    }
  }

  lemma PassAll(s: Snap, at: PageId)
    requires NodesOk(s) && at in s.nodes && s.nodes[at].level == 0 && s.pages[at].link.None?
    ensures PassedNodes(s, at) + {at} == s.nodes.Keys
  {
    forall x | x in s.nodes && x != at
      ensures x in PassedNodes(s, at)
    {
      assert Apart(s, at, x);
    }
  }

  /** The chains referenced from the leaves among `ps`. */
  ghost function ChainsFrom(s: Snap, ps: set<PageId>): set<PageId> {
    set x, e | x in ps && x in s.pages && s.pages[x].Leaf? && e in s.pages[x].entries && e.overflow :: FirstOf(e)
  }

  /** What the walk has named when it has passed the nodes `ps`. */
  ghost function Named(s: Snap, ps: set<PageId>): set<PageId> {
    ps + ChainPagesOf(s.chains, ChainsFrom(s, ps))
  }

  ghost function EntryChains(es: seq<Entry>): set<PageId> {
    set e | e in es && e.overflow :: FirstOf(e)
  }

  lemma ChainsFromOne(s: Snap, ps: set<PageId>, at: PageId)
    requires at in s.pages
    ensures ChainsFrom(s, ps + {at}) == ChainsFrom(s, ps) + if s.pages[at].Leaf? then EntryChains(s.pages[at].entries) else {}
  {
  }

  lemma AllLive(s: Snap)
    requires Inv(s)
    ensures ChainsFrom(s, s.nodes.Keys) == LiveChains(Rows(s))
  {
    forall f | f in ChainsFrom(s, s.nodes.Keys)
      ensures f in LiveChains(Rows(s))
    {
      var x, e :| x in s.nodes.Keys && x in s.pages && s.pages[x].Leaf? && e in s.pages[x].entries && e.overflow && FirstOf(e) == f;
      assert EntryIn(s, x, e);
      RowsHold(s, e);
    }
    forall f | f in LiveChains(Rows(s))
      ensures f in ChainsFrom(s, s.nodes.Keys)
    {
      var k :| k in Rows(s) && Rows(s)[k].overflow && FirstOf(Rows(s)[k]) == f;
      RowsHasEntry(s, k);
      var x :| EntryIn(s, x, Rows(s)[k]);
    }
  }

  /** The chain of an entry not reached before shares no page with anything named before. */
  lemma NewChainNamed(s: Snap, ps: set<PageId>, at: PageId, i: nat)
    requires Inv(s) && ChainsOk(s) && StubsOk(s) && ps <= s.nodes.Keys && at in s.nodes && at !in ps
    requires s.nodes[at].level == 0 && i < |s.pages[at].entries| && s.pages[at].entries[i].overflow
    ensures var e := s.pages[at].entries[i];
            && StubOk(s, e) && ChainOk(s, FirstOf(e))
            && (forall x :: x in s.chains[FirstOf(e)] ==>
                  x !in s.nodes && x !in ChainPagesOf(s.chains, ChainsFrom(s, ps) + EntryChains(s.pages[at].entries[..i])))
  {
    var es := s.pages[at].entries;
    var e := es[i];
    assert NodeOk(s, at);
    assert e in es;
    EntryIsRow(s, at, e);
    assert StubOk(s, Rows(s)[e.key]);
    var f := FirstOf(e);
    assert ChainOk(s, f);
    forall g | g in ChainsFrom(s, ps) + EntryChains(es[..i])
      ensures g in s.chains ==> forall x :: x in s.chains[f] ==> x !in s.chains[g]
    {
      OtherEntryChain(s, ps, at, i, g);
      assert g in s.chains ==> ChainsApart(s, f, g);
    }
    forall x | x in s.chains[f]
      ensures x !in s.nodes
    {
      ChainPagesIn(s, f, x);
    }
  }

  lemma EntryIsRow(s: Snap, at: PageId, e: Entry)
    requires Inv(s) && at in s.nodes && s.nodes[at].level == 0 && e in s.pages[at].entries
    ensures e.key in Rows(s) && Rows(s)[e.key] == e
  {
    assert EntryIn(s, at, e);
    RowsHold(s, e);
  }

  lemma OtherEntryChain(s: Snap, ps: set<PageId>, at: PageId, i: nat, g: PageId)
    requires Inv(s) && StubsOk(s) && ps <= s.nodes.Keys && at in s.nodes && at !in ps
    requires s.nodes[at].level == 0 && i < |s.pages[at].entries| && s.pages[at].entries[i].overflow
    requires g in ChainsFrom(s, ps) + EntryChains(s.pages[at].entries[..i])
    ensures g != FirstOf(s.pages[at].entries[i])
  {
    var es := s.pages[at].entries;
    var e := es[i];
    assert e in es;
    assert NodeOk(s, at);
    EntryIsRow(s, at, e);
    if g in ChainsFrom(s, ps) {
      var x, f :| x in ps && x in s.pages && s.pages[x].Leaf? && f in s.pages[x].entries && f.overflow && FirstOf(f) == g;
      assert NodeOk(s, x) && Apart(s, at, x) && Apart(s, x, at);
      EntryIsRow(s, x, f);
      assert StubsApart(Rows(s), f.key, e.key);
    } else {
      var f :| f in es[..i] && f.overflow && FirstOf(f) == g;
      EntryIsRow(s, at, f);
      assert StubsApart(Rows(s), f.key, e.key);
    }
  }

  /** `out` names each page of `named` once. */
  ghost predicate NamesOnce(out: seq<PageId>, named: set<PageId>) {
    Distinct(out) && forall x :: x in out <==> x in named
  }

  lemma AppendNew(out: seq<PageId>, more: seq<PageId>)
    requires Distinct(out) && Distinct(more) && forall x :: x in more ==> x !in out
    ensures Distinct(out + more)
  {
    var all := out + more;
    forall i, j | 0 <= i < j < |all|
      ensures all[i] != all[j]
    {
      if i < |out| <= j { assert all[j] in more && all[i] in out; }
    }
  }

  lemma ChainPagesOfOne(chains: map<PageId, seq<PageId>>, fs: set<PageId>, f: PageId)
    requires f in chains
    ensures ChainPagesOf(chains, fs + {f}) == ChainPagesOf(chains, fs) + set x | x in chains[f]
  {
  }

  lemma LeafShape(s: Snap, p: PageId)
    requires Inv(s) && p in s.nodes && s.nodes[p].level == 0
    ensures p in s.pages && s.pages[p].Leaf?
  {
  }

  lemma NodeShape(s: Snap, p: PageId)
    requires Inv(s) && p in s.nodes
    ensures p in s.pages && IsNode(s.pages[p]) && (s.pages[p].Leaf? <==> s.nodes[p].level == 0)
  {
  }

  lemma LinkLow(s: Snap, p: PageId)
    requires Inv(s) && p in s.nodes && s.nodes[p].level == 0 && p in s.pages && IsNode(s.pages[p]) && s.pages[p].link.Some?
    ensures var q := s.pages[p].link.value;
            q in s.nodes && s.nodes[q] == Place(0, s.pages[p].high) && s.nodes[p].low < s.nodes[q].low
  {
    assert NodeOk(s, p);
  }

  lemma PassRoot(s: Snap)
    requires Inv(s)
    ensures NamesOnce([], Named(s, PassedNodes(s, s.root)))
  {
    assert NodeOk(s, s.root);
    forall x | x in s.nodes
      ensures x !in PassedNodes(s, s.root)
    {}
    assert PassedNodes(s, s.root) == {};
  }

  lemma NameNode(s: Snap, at: PageId, out: seq<PageId>)
    requires Inv(s) && ChainsOk(s) && at in s.nodes && at in s.pages && at !in PassedNodes(s, at)
    requires NamesOnce(out, Named(s, PassedNodes(s, at)))
    ensures NamesOnce(out + [at], Named(s, PassedNodes(s, at)) + {at})
    ensures !s.pages[at].Leaf? ==> NamesOnce(out + [at], Named(s, PassedNodes(s, at) + {at}))
    ensures PassedNodes(s, at) <= s.nodes.Keys
  {
    var ps := PassedNodes(s, at);
    assert at !in out by {
      if at in ChainPagesOf(s.chains, ChainsFrom(s, ps)) {
        var f :| f in ChainsFrom(s, ps) && f in s.chains && at in s.chains[f];
        assert ChainOk(s, f);
        ChainPagesIn(s, f, at);
      }
    }
    AppendNew(out, [at]);
    ChainsFromOne(s, ps, at);
  }

  /** Live and retired chains share no page, so the walk and the retired pages are disjoint. */
  lemma AllPages(s: Snap, out: seq<PageId>, retired: set<PageId>)
    requires Inv(s) && ChainsOk(s) && Accounted(s, retired)
    requires NamesOnce(out, Named(s, s.nodes.Keys)) && ChainsFrom(s, s.nodes.Keys) == LiveChains(Rows(s))
    ensures (set x | x in out) !! ChainPagesOf(s.chains, retired)
    ensures (set x | x in out) + ChainPagesOf(s.chains, retired) == s.pages.Keys
  {
    hide Rows;
    forall x | x in ChainPagesOf(s.chains, retired)
      ensures x !in s.nodes.Keys && x !in ChainPagesOf(s.chains, LiveChains(Rows(s)))
    {
      var f :| f in retired && f in s.chains && x in s.chains[f];
      assert ChainOk(s, f);
      ChainPagesIn(s, f, x);
      forall g | g in LiveChains(Rows(s)) && g in s.chains
        ensures x !in s.chains[g]
      {
        assert ChainsApart(s, f, g);
      }
    }
    assert ChainPagesOf(s.chains, s.chains.Keys) == ChainPagesOf(s.chains, LiveChains(Rows(s))) + ChainPagesOf(s.chains, retired);
  }

  /** The walk has named `ps`, leaf `at`, and the chains of `ps` and of `at`'s first `i` entries. */
  ghost predicate NamedTo(s: Snap, ps: set<PageId>, at: PageId, i: nat, out: seq<PageId>)
    requires at in s.pages && s.pages[at].Leaf? && i <= |s.pages[at].entries|
  {
    NamesOnce(out, ps + {at} + ChainPagesOf(s.chains, ChainsFrom(s, ps) + EntryChains(s.pages[at].entries[..i])))
  }

  lemma NamedFrom(s: Snap, ps: set<PageId>, at: PageId, out: seq<PageId>)
    requires at in s.pages && s.pages[at].Leaf? && NamesOnce(out, Named(s, ps) + {at})
    ensures NamedTo(s, ps, at, 0, out)
  {
    assert ChainsFrom(s, ps) + EntryChains(s.pages[at].entries[..0]) == ChainsFrom(s, ps);
  }

  lemma EntryChainsNext(es: seq<Entry>, i: nat)
    requires i < |es|
    ensures EntryChains(es[..i + 1]) == EntryChains(es[..i]) + (if es[i].overflow then {FirstOf(es[i])} else {})
  {
    assert es[..i + 1] == es[..i] + [es[i]];
  }

  lemma NameChain(s: Snap, ps: set<PageId>, at: PageId, i: nat, out: seq<PageId>, more: seq<PageId>)
    requires at in s.nodes && at in s.pages && s.pages[at].Leaf? && i < |s.pages[at].entries| && s.pages[at].entries[i].overflow
    requires NamedTo(s, ps, at, i, out) && ps <= s.nodes.Keys
    requires var f := FirstOf(s.pages[at].entries[i]);
             && f in s.chains && more == s.chains[f] && Distinct(more)
             && (forall x :: x in s.chains[f] ==>
                   x !in s.nodes && x !in ChainPagesOf(s.chains, ChainsFrom(s, ps) + EntryChains(s.pages[at].entries[..i])))
    ensures NamedTo(s, ps, at, i + 1, out + more)
  {
    hide ChainPagesOf, ChainsFrom;
    var es := s.pages[at].entries;
    var f := FirstOf(es[i]);
    AppendNew(out, more);
    EntryChainsNext(es, i);
    var before := ChainsFrom(s, ps) + EntryChains(es[..i]);
    ChainPagesOfOne(s.chains, before, f);
    assert ChainsFrom(s, ps) + EntryChains(es[..i + 1]) == before + {f};
  }

  lemma NameNothing(s: Snap, ps: set<PageId>, at: PageId, i: nat, out: seq<PageId>)
    requires at in s.pages && s.pages[at].Leaf? && i < |s.pages[at].entries| && !s.pages[at].entries[i].overflow
    requires NamedTo(s, ps, at, i, out)
    ensures NamedTo(s, ps, at, i + 1, out)
  {
    EntryChainsNext(s.pages[at].entries, i);
  }

  lemma NamedAll(s: Snap, ps: set<PageId>, at: PageId, out: seq<PageId>)
    requires at in s.pages && s.pages[at].Leaf? && NamedTo(s, ps, at, |s.pages[at].entries|, out)
    ensures NamesOnce(out, Named(s, ps + {at}))
  {
    var es := s.pages[at].entries;
    assert es[..|es|] == es;
    ChainsFromOne(s, ps, at);
  }
}
