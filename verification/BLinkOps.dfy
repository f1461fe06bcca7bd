/** What the operations of the clustered tree do to the table and to the pages, put together from
    what they do to one leaf. */
module BLinkOps {
  import opened Bytes
  import opened Distinctness
  import opened BLinkNode
  import opened BLinkInvariant
  import opened BLinkReader
  import opened BLinkSteps
  import opened BLinkPacking
  import opened BLinkSplit
  import opened BLinkChain
  import opened BLinkPublish
  import opened BLinkLeafWrite
  import opened BLinkRows
  import opened BLinkMoments
  import opened BLinkWalks

  // --- one changed entry -----------------------------------------------------------------------

  lemma {:induction false} FittingEntries(es: seq<Entry>)
    requires TotalSize(es) <= LEAF_CAPACITY
    ensures EachFits(es)
  {
    if es != [] {
      FittingEntries(es[1..]);
      assert es == [es[0]] + es[1..];
    }
  }

  lemma InsertChanges(es: seq<Entry>, at: nat, e: Entry)
    requires LeafFits(es) && EntrySize(e) <= LEAF_CAPACITY && at <= |es|
    ensures OneChanged(Inserted(es, at, e), at)
  {
    hide TotalSize;
    var fs := Inserted(es, at, e);
    FittingEntries(es);
    assert es == es[..at] + es[at..];
    assert fs[..at] == es[..at] && fs[at + 1..] == es[at..];
    TotalConcat(es[..at], es[at..]);
    assert forall f :: f in fs ==> f == e || f in es;
  }

  lemma UpdateChanges(es: seq<Entry>, at: nat, e: Entry)
    requires LeafFits(es) && EntrySize(e) <= LEAF_CAPACITY && at < |es|
    ensures OneChanged(es[at := e], at)
  {
    hide TotalSize;
    var fs := es[at := e];
    FittingEntries(es);
    assert es == es[..at] + ([es[at]] + es[at + 1..]);
    assert fs[..at] == es[..at] && fs[at + 1..] == es[at + 1..];
    TotalConcat(es[..at], [es[at]] + es[at + 1..]);
    TotalConcat([es[at]], es[at + 1..]);
    forall f | f in fs
      ensures f == e || f in es
    {
      var i :| 0 <= i < |fs| && fs[i] == f;
      assert i != at ==> es[i] == f;
    }
  }

  lemma RemovedFits(es: seq<Entry>, at: nat)
    requires LeafFits(es) && at < |es|
    ensures LeafFits(Removed(es, at))
  {
    hide TotalSize;
    TotalAround(es, at);
    TotalConcat(es[..at], es[at + 1..]);
    BytesDecide(Removed(es, at));
  }

  lemma TotalAround(es: seq<Entry>, at: nat)
    requires at < |es|
    ensures TotalSize(es) == TotalSize(es[..at]) + EntrySize(es[at]) + TotalSize(es[at + 1..])
  {
    hide TotalSize;
    assert es == es[..at] + ([es[at]] + es[at + 1..]);
    TotalConcat(es[..at], [es[at]] + es[at + 1..]);
    TotalConcat([es[at]], es[at + 1..]);
    TotalOne(es[at]);
  }

  lemma ResizedFits(es: seq<Entry>, at: nat, e: Entry)
    requires LeafFits(es) && at < |es| && EntrySize(e) == EntrySize(es[at])
    ensures LeafFits(es[at := e])
  {
    hide TotalSize;
    TotalAround(es, at);
    TotalAround(es[at := e], at);
  }

  // --- the table before and after --------------------------------------------------------------

  /** The moments after `tr0` show the table `before`, and from one write on the table `after`. */
  ghost predicate TableSwitches(tr0: seq<Snap>, tr: seq<Snap>, before: map<Key, seq<byte>>, after: map<Key, seq<byte>>) {
    tr0 <= tr && exists lin :: TableSwitchesAt(|tr0|, tr, before, after, lin)
  }

  ghost predicate TableSwitchesAt(from: nat, tr: seq<Snap>, before: map<Key, seq<byte>>, after: map<Key, seq<byte>>, lin: nat) {
    && from <= lin <= |tr|
    && (forall i :: from <= i < lin ==> Table(tr[i]) == before)
    && (forall i :: lin <= i < |tr| ==> Table(tr[i]) == after)
  }

  lemma SameTable(tr: seq<Snap>, i: nat, j: nat)
    requires ChainTrace(tr) && i <= j < |tr| && Rows(tr[i]) == Rows(tr[j])
    ensures Table(tr[i]) == Table(tr[j])
  {
    assert ChainsOk(tr[i]) && StubsOk(tr[i]) && KeepsChains(tr[i], tr[j]);
    TableKept(tr[i], tr[j]);
  }

  lemma TablesFollow(tr0: seq<Snap>, tr: seq<Snap>, s: Snap, t: Snap, after: map<Key, Entry>)
    requires Recorded(tr0, s) && Recorded(tr, t) && Switches(tr0, tr, Rows(s), after)
    ensures TableSwitches(tr0, tr, Table(s), Table(t))
  {
    hide Rows, Table, Trace, ChainTrace;
    var lin: nat :| SwitchesAt(|tr0|, tr, Rows(s), after, lin);
    var first, last := |tr0| - 1, |tr| - 1;
    assert tr[first] == tr0[first];
    forall i | |tr0| <= i < lin
      ensures Table(tr[i]) == Table(s)
    {
      SameTable(tr, first, i);
    }
    forall i | lin <= i < |tr|
      ensures Table(tr[i]) == Table(t)
    {
      SameTable(tr, i, last);
    }
    assert TableSwitchesAt(|tr0|, tr, Table(s), Table(t), lin);
  }

  /** Moments that show the same rows, around a switch, do not hide it. */
  lemma SwitchWithin(tr0: seq<Snap>, tr1: seq<Snap>, tr2: seq<Snap>, tr3: seq<Snap>, t: Snap,
                     before: map<Key, Entry>, after: map<Key, Entry>)
    requires Steady(tr0, tr1, before) && Switches(tr1, tr2, before, after)
    requires Recorded(tr2, t) && Steady(tr2, tr3, Rows(t))
    requires |tr1| > 0 && Rows(tr1[|tr1| - 1]) == before
    ensures Switches(tr0, tr3, before, after)
  {
    hide Rows, Trace, ChainTrace;
    var lin: nat :| SwitchesAt(|tr1|, tr2, before, after, lin);
    var l := if lin == |tr2| then |tr3| else lin;
    forall i | |tr0| <= i < l
      ensures Rows(tr3[i]) == before
    {
      if i < |tr1| { assert tr3[i] == tr2[i] == tr1[i]; }
      else if i < |tr2| { assert tr3[i] == tr2[i]; }
      else { assert tr2[|tr2| - 1] == t; }
    }
    forall i | l <= i < |tr3|
      ensures Rows(tr3[i]) == after
    {
      if i < |tr2| { assert tr3[i] == tr2[i]; }
    }
    assert SwitchesAt(|tr0|, tr3, before, after, l);
  }

  // --- a new value under a row id --------------------------------------------------------------

  /** Leaf `p` is about to be written with `es`, which has the new entry `e` under `key`. */
  ghost predicate RowChange(s: Snap, p: PageId, es: seq<Entry>, key: Key, e: Entry, tuple: seq<byte>, cs: map<PageId, seq<PageId>>) {
    && Inv(s) && ChainsOk(s) && StubsOk(s)
    && p in s.nodes && p in s.pages && s.pages[p].Leaf? && Inv(Rewrite(s, p, es))
    && Rows(Rewrite(s, p, es)) == SetRow(Rows(s), key, Some(e))
    && EntryReady(s, e, key, tuple, cs)
  }

  lemma NewStubOwnsItsChain(s: Snap, key: Key, e: Entry)
    requires StubsOk(s) && e.key == key && (e.overflow ==> FirstOf(e) !in s.chains)
    ensures OwnChain(Rows(s), key, Some(e))
  {
    forall l | l in Rows(s) && l != key && Rows(s)[l].overflow
      ensures e.overflow ==> FirstOf(Rows(s)[l]) != FirstOf(e)
    {
      assert StubOk(s, Rows(s)[l]);
    }
  }

  lemma RowChangeStubs(s: Snap, p: PageId, es: seq<Entry>, key: Key, e: Entry, tuple: seq<byte>, cs: map<PageId, seq<PageId>>)
    requires RowChange(s, p, es, key, e, tuple, cs)
    ensures var r := Rewrite(s, p, es).(chains := cs);
            && StubsOk(r) && ChainsOk(r) && Rows(r) == SetRow(Rows(s), key, Some(e))
            && Table(r) == Table(s)[key := tuple]
            && OwnChain(Rows(s), key, Some(e))
  {
    hide Rows, StubsOk;
    var w := Rewrite(s, p, es);
    var r := w.(chains := cs);
    var c := s.(chains := cs);
    OutsidePage(w, r);
    LeafWriteChains(s, p, s.pages[p].(entries := es), cs);
    ChainsOutside(s, r);
    ChainsOutside(c, r);
    ValueKept(c, r, e);
    NewStubOwnsItsChain(s, key, e);
    TableChanges(s, r, key, Some(e));
  }

  /** The change is done: the table has the new value, and nothing else changed hands. */
  lemma RowChangeDone(s: Snap, t: Snap, tr0: seq<Snap>, tr: seq<Snap>, p: PageId, es: seq<Entry>,
                      key: Key, e: Entry, tuple: seq<byte>, cs: map<PageId, seq<PageId>>, st: Status)
    requires RowChange(s, p, es, key, e, tuple, cs)
    requires LeafOutcome(s, t, tr0, tr, p, es, cs, st)
    ensures st.Done? ==> Table(t) == Table(s)[key := tuple] && Rows(t) == SetRow(Rows(s), key, Some(e))
    ensures st.Failed? ==> Table(t) == Table(s) || Table(t) == Table(s)[key := tuple]
  {
    hide Inv, Rows, StubsOk, Recorded, AllFit, Complete, Switches;
    var w := Rewrite(s, p, es);
    var r := w.(chains := cs);
    RowChangeStubs(s, p, es, key, e, tuple, cs);
    RecordedNow(tr, t);
    if Rows(t) == Rows(w) && t.chains == cs {
      ChainsOutside(r, t);
      TableKept(r, t);
    }
    if Rows(t) == Rows(s) && t.chains == s.chains {
      ChainsOutside(s, t);
      TableKept(s, t);
    }
  }

  // --- whose pages are whose -------------------------------------------------------------------

  /** Outside the tree nodes, `s` has exactly the pages of the chains `cs`. */
  ghost predicate PagesAre(s: Snap, cs: map<PageId, seq<PageId>>) {
    s.pages.Keys == s.nodes.Keys + ChainPagesOf(cs, cs.Keys)
  }

  lemma PagesWithChain(s0: Snap, s: Snap, ids: seq<PageId>, cs: map<PageId, seq<PageId>>, first: PageId)
    requires PagesAre(s0, s0.chains) && s.nodes == s0.nodes && NewPages(s0.pages, s.pages, ids)
    requires first !in s0.chains && cs == s0.chains[first := ids]
    ensures PagesAre(s, cs)
  {
    forall x
      ensures x in s.pages.Keys <==> x in s.nodes.Keys + ChainPagesOf(cs, cs.Keys)
    {
      if x in ids { assert first in cs.Keys && x in cs[first]; }
      if x in ChainPagesOf(s0.chains, s0.chains.Keys) {
        var f :| f in s0.chains && x in s0.chains[f];
        assert f in cs && cs[f] == s0.chains[f];
      }
      if x in ChainPagesOf(cs, cs.Keys) {
        var f :| f in cs && x in cs[f];
        if f != first { assert x in ChainPagesOf(s0.chains, s0.chains.Keys); }
      }
    }
  }

  lemma PagesAfterWrite(s: Snap, t: Snap, cs: map<PageId, seq<PageId>>)
    requires PagesAre(s, cs) && ChainsReady(s, cs) && Outside(s, t) && NewAreNodes(s, t) && Extends(s, t) && Inv(t)
    ensures PagesAre(t, cs)
  {
    var r := s.(chains := cs);
    forall x
      ensures x in t.pages.Keys <==> x in t.nodes.Keys + ChainPagesOf(cs, cs.Keys)
    {
      if x in ChainPagesOf(cs, cs.Keys) {
        var f :| f in cs && x in cs[f];
        assert ChainOk(r, f);
        ChainPagesIn(r, f, x);
      }
    }
  }

  // --- the leaf that owns a row id -------------------------------------------------------------

  lemma OwnerExists(s: Snap, k: Key)
    requires Inv(s)
    ensures exists p :: Owns(s, p, k)
  {
    var v, at := LookupWalk(s, k, s.root);
    var tr := [s];
    assert Extends(s, s);
    assert Trace(tr);
    WalkOnCourse(tr, k, tr[0].root, 0, v, at);
    assert Owns(s, at, k);
  }

  ghost predicate Owns(s: Snap, p: PageId, k: Key)
    requires Inv(s)
  {
    p in s.nodes && s.nodes[p].level == 0 && InRange(s.pages[p], s.nodes[p].low, k)
  }

  /** The entries of the leaf that owns `key`, with `tuple` put under it, sized as it will be
      stored. */
  ghost function LeafWith(s: Snap, key: Key, tuple: seq<byte>): seq<Entry>
    requires Inv(s)
  {
    OwnerExists(s, key);
    var p :| Owns(s, p, key);
    Put(s.pages[p].entries, Sketch(key, tuple))
  }

  lemma LeafWithIs(s: Snap, p: PageId, key: Key, tuple: seq<byte>, at: nat, e: Entry)
    requires Inv(s) && Owns(s, p, key) && IsPosition(s.pages[p].entries, key, at)
    requires e.key == key && |e.stored| == |Sketch(key, tuple).stored|
    ensures var es := s.pages[p].entries;
            SameShape(LeafWith(s, key, tuple), if FoundAt(es, key, at) then es[at := e] else Inserted(es, at, e))
  {
    hide LeafWith, Put;
    LeafWithOwner(s, p, key, tuple);
    var es := s.pages[p].entries;
    assert NodeOk(s, p);
    PutInserts(es, at, Sketch(key, tuple));
    PutShape(es, at, Sketch(key, tuple), e);
  }

  lemma LeafWithOwner(s: Snap, p: PageId, key: Key, tuple: seq<byte>)
    requires Inv(s) && Owns(s, p, key)
    ensures LeafWith(s, key, tuple) == Put(s.pages[p].entries, Sketch(key, tuple))
  {
    OwnerExists(s, key);
    var q :| Owns(s, q, key) && LeafWith(s, key, tuple) == Put(s.pages[q].entries, Sketch(key, tuple));
    assert NodeOk(s, p) && Apart(s, p, q) && Apart(s, q, p);
  }

  lemma PutShape(es: seq<Entry>, at: nat, d: Entry, e: Entry)
    requires at <= |es| && d.key == e.key && |d.stored| == |e.stored|
    ensures at < |es| ==> SameShape(es[at := d], es[at := e])
    ensures SameShape(Inserted(es, at, d), Inserted(es, at, e))
  {
  }

  // --- the root leaf that overflows into three -------------------------------------------------

  /** Putting `tuple` under `key` makes a root leaf overflow into three. */
  ghost predicate Triples(s: Snap, key: Key, tuple: seq<byte>)
    requires Inv(s)
  {
    s.pages[s.root].Leaf? && !LeafFits(LeafWith(s, key, tuple)) && |Pack(LeafWith(s, key, tuple), [])| == 3
  }

  lemma {:induction false} SketchTriples(path: seq<PageId>, es: seq<Entry>, fs: seq<Entry>)
    requires SameShape(es, fs)
    ensures TripleRoot(path, es) <==> TripleRoot(path, fs)
    ensures LeafFits(es) <==> LeafFits(fs)
    ensures |Pack(es, [])| == |Pack(fs, [])|
  {
    SameShapeTotal(es, fs);
    SameShapePack(es, fs, [], []);
  }

  /** Of three chunks the first holds a row, and it lies below the second. */
  lemma {:induction false} TripleLosesRow(es: seq<Entry>, pos: nat)
    requires OneChanged(es, pos) && Sorted(es) && |Pack(es, [])| == 3
    ensures Pack(es, [])[1] != [] && es != [] && es[0].key < Pack(es, [])[1][0].key
  {
    var chunks := Pack(es, []);
    TwoOrThree(es, pos);
    TightChunks(chunks, 0);
    TightChunks(chunks, 1);
    FlattenTwo(chunks);
    var n := |chunks[0]|;
    assert es[0] == chunks[0][0] && es[n] == chunks[1][0];
  }

  // --- outcomes --------------------------------------------------------------------------------

  /** How writing a new entry ends. A write that fails in place leaves exactly the pages there
      were before the entry's chain was written. */
  ghost predicate EntryWritten(s: Snap, t: Snap, tr0: seq<Snap>, tr: seq<Snap>, es: seq<Entry>, e: Entry, tuple: seq<byte>,
                               before: map<PageId, Node>, ids: seq<PageId>, st: Status)
  {
    && Recorded(tr, t) && AllFit(t)
    && Switches(tr0, tr, Rows(s), SetRow(Rows(s), e.key, Some(e)))
    && (st.Done? ==>
          && Complete(t, {}) && Outside(s, t) && NewAreNodes(s, t) && Extends(s, t)
          && t.chains == WithChain(s.chains, e, ids)
          && Table(t) == Table(s)[e.key := tuple] && Rows(t) == SetRow(Rows(s), e.key, Some(e)))
    && (st.Failed? ==> st == Failed(Io) && (Table(t) == Table(s) || Table(t) == Table(s)[e.key := tuple]))
    && (st.Failed? && LeafFits(es) ==> t == s.(pages := before))
  }

  lemma RowChangeReady(s: Snap, p: PageId, es: seq<Entry>, key: Key, e: Entry, tuple: seq<byte>, cs: map<PageId, seq<PageId>>)
    requires RowChange(s, p, es, key, e, tuple, cs)
    ensures ChainsReady(s, cs) && EntryReady(s, e, key, tuple, cs) && p in s.nodes && p in s.pages && s.pages[p].Leaf?
  {
  }

  lemma LeafOutcomeSame(s: Snap, t: Snap, tr0: seq<Snap>, tr: seq<Snap>, p: PageId, es: seq<Entry>,
                        cs: map<PageId, seq<PageId>>, st: Status)
    requires p in s.pages && s.pages[p].Leaf? && LeafOutcome(s, t, tr0, tr, p, es, cs, st) && st.Failed? && LeafFits(es)
    ensures t == s && Recorded(tr, t)
  {
  }

  lemma WrittenOutcome(s: Snap, t: Snap, tr0: seq<Snap>, tr: seq<Snap>, p: PageId, es: seq<Entry>, e: Entry, tuple: seq<byte>,
                       before: map<PageId, Node>, ids: seq<PageId>, cs: map<PageId, seq<PageId>>, st: Status)
    requires RowChange(s, p, es, e.key, e, tuple, cs) && cs == WithChain(s.chains, e, ids)
    requires LeafOutcome(s, t, tr0, tr, p, es, cs, st) && Recorded(tr0, s)
    requires st.Failed? ==> st == Failed(Io) && !LeafFits(es)
    ensures EntryWritten(s, t, tr0, tr, es, e, tuple, before, ids, st)
  {
    RowChangeDone(s, t, tr0, tr, p, es, e.key, e, tuple, cs, st);
    assert tr[|tr0| - 1] == tr0[|tr0| - 1] == s;
    assert Extends(tr[|tr0| - 1], tr[|tr| - 1]);
  }

  lemma DiscardedOutcome(s: Snap, tr0: seq<Snap>, tr: seq<Snap>, trt: seq<Snap>, p: PageId, es: seq<Entry>, e: Entry, tuple: seq<byte>,
                         before: map<PageId, Node>, ids: seq<PageId>, cs: map<PageId, seq<PageId>>, st: Status)
    requires RowChange(s, p, es, e.key, e, tuple, cs) && LeafFits(es) && st == Failed(Io)
    requires LeafOutcome(s, s, tr0, tr, p, es, cs, st) && Recorded(tr0, s) && AllFit(s)
    requires var t := s.(pages := before);
             Recorded(trt, t) && Steady(tr, trt, Rows(s)) && Rows(t) == Rows(s)
    requires NewPages(before, s.pages, ids)
    ensures EntryWritten(s, s.(pages := before), tr0, trt, es, e, tuple, before, ids, st)
  {
    var t := s.(pages := before);
    var after := SetRow(Rows(s), e.key, Some(e));
    SwitchWithin(tr0, tr0, tr, trt, s, Rows(s), after);
    SwitchWithin(tr0, tr0, trt, trt, t, Rows(s), after);
    RecordedNow(tr, s);
    RecordedNow(trt, t);
    assert Table(t) == Table(s) by {
      forall f | f in s.chains
        ensures ChainKept(t, s, f)
      {}
      TableKept(t, s);
    }
  }

  lemma UnpublishedChain(s: Snap, e: Entry, tuple: seq<byte>, ids: seq<PageId>)
    requires EntryReady(s, e, e.key, tuple, WithChain(s.chains, e, ids)) && e.overflow && ids != []
    ensures DecodeStub(e.stored).Some?
    ensures var stub := DecodeStub(e.stored).value;
            && stub.first == ids[0] && |ids| == ChainLen(stub.total) && Distinct(ids)
    ensures forall i {:trigger ChainPage(s, ids, i)} :: 0 <= i < |ids| ==> ChainPage(s, ids, i)
    ensures forall i :: 0 <= i < |ids| ==> ids[i] in s.pages && ids[i] !in s.nodes && NotChained(s.chains, ids[i])
  {
    var cs := WithChain(s.chains, e, ids);
    var r := s.(chains := cs);
    var first := FirstOf(e);
    assert ChainOk(r, first);
    forall i | 0 <= i < |ids|
      ensures ChainPage(s, ids, i)
    {
      assert ChainPage(r, ids, i);
    }
    forall i, f | 0 <= i < |ids| && f in s.chains
      ensures ids[i] !in s.chains[f]
    {
      assert ChainsApart(r, f, first);
      assert ids[i] in cs[first];
    }
    forall i | 0 <= i < |ids|
      ensures ids[i] in s.pages && ids[i] !in s.nodes
    {
      assert ChainPage(s, ids, i);
    }
  }

  // --- whole operations ------------------------------------------------------------------------

  /** The entry for `tuple` has been made: the tree is as it was, with one chain more beside it. */
  ghost predicate Prepared(s0: Snap, s: Snap, tr0: seq<Snap>, tr: seq<Snap>, e: Entry, tuple: seq<byte>, ids: seq<PageId>) {
    && Recorded(tr0, s0) && Recorded(tr, s) && Steady(tr0, tr, Rows(s0))
    && s.nodes == s0.nodes && s.chains == s0.chains && s.root == s0.root && Rows(s) == Rows(s0)
    && NewPages(s0.pages, s.pages, ids) && (e.overflow <==> ids != [])
    && EntryReady(s, e, e.key, tuple, WithChain(s.chains, e, ids))
  }

  /** A prepared state offers the same leaf, the same path and the same rows as before. */
  lemma PreparedTree(s0: Snap, s: Snap, tr0: seq<Snap>, tr: seq<Snap>, e: Entry, tuple: seq<byte>, ids: seq<PageId>)
    requires Prepared(s0, s, tr0, tr, e, tuple, ids) && AllFit(s0) && Complete(s0, {})
    ensures SameTree(s0, s) && Inv(s) && AllFit(s) && Complete(s, {}) && Extends(s0, s)
    ensures ChainsOk(s) && StubsOk(s) && Table(s) == Table(s0)
  {
    hide Inv, AllFit, Complete, ChainsOk, StubsOk, Rows, Table, EntryReady, Recorded;
    RecordedNow(tr0, s0);
    RecordedNow(tr, s);
    NodesHavePages(tr0, s0);
    SameTreeKeeps(s0, s, {});
    TableAfterSteady(s0, s, tr0, tr);
  }

  lemma TableAfterSteady(s0: Snap, s: Snap, tr0: seq<Snap>, tr: seq<Snap>)
    requires Recorded(tr0, s0) && Recorded(tr, s) && tr0 <= tr && Rows(s) == Rows(s0)
    ensures Table(s) == Table(s0)
  {
    hide Rows, Table, Trace, ChainTrace;
    assert tr[|tr0| - 1] == tr0[|tr0| - 1];
    SameTable(tr, |tr0| - 1, |tr| - 1);
  }

  lemma PreparedInsert(s: Snap, path: seq<PageId>, p: PageId, at: nat, e: Entry, tuple: seq<byte>, cs: map<PageId, seq<PageId>>)
    requires Inv(s) && AllFit(s) && ChainsOk(s) && StubsOk(s) && EntryReady(s, e, e.key, tuple, cs)
    requires p in s.nodes && s.nodes[p].level == 0 && PathOk(s, path, p) && |path| == Top(s)
    requires InRange(s.pages[p], s.nodes[p].low, e.key)
    requires IsPosition(s.pages[p].entries, e.key, at) && !FoundAt(s.pages[p].entries, e.key, at)
    ensures var es := Inserted(s.pages[p].entries, at, e);
            LeafChange(s, path, p, es, at) && RowChange(s, p, es, e.key, e, tuple, cs)
  {
    var n := s.pages[p];
    assert NodeOk(s, p) && NodeFits(n);
    InsertedEntries(n, s.nodes[p].low, at, e);
    InsertChanges(n.entries, at, e);
    RewriteOneRow(s, p, Inserted(n.entries, at, e), e.key);
  }

  lemma PreparedUpdate(s: Snap, path: seq<PageId>, p: PageId, at: nat, e: Entry, tuple: seq<byte>, cs: map<PageId, seq<PageId>>)
    requires Inv(s) && AllFit(s) && ChainsOk(s) && StubsOk(s) && EntryReady(s, e, e.key, tuple, cs)
    requires p in s.nodes && s.nodes[p].level == 0 && PathOk(s, path, p) && |path| == Top(s)
    requires InRange(s.pages[p], s.nodes[p].low, e.key) && FoundAt(s.pages[p].entries, e.key, at)
    ensures var es := s.pages[p].entries[at := e];
            LeafChange(s, path, p, es, at) && RowChange(s, p, es, e.key, e, tuple, cs)
  {
    var n := s.pages[p];
    assert NodeOk(s, p) && NodeFits(n);
    UpdatedEntries(n, s.nodes[p].low, at, e);
    UpdateChanges(n.entries, at, e);
    RewriteOneRow(s, p, n.entries[at := e], e.key);
  }

  /** The leaf's entries with `e` put at its place, whether or not its key is there. */
  function PutEntry(es: seq<Entry>, at: nat, e: Entry): seq<Entry>
    requires at <= |es|
  {
    if FoundAt(es, e.key, at) then es[at := e] else Inserted(es, at, e)
  }

  lemma PreparedPut(s: Snap, path: seq<PageId>, p: PageId, at: nat, e: Entry, tuple: seq<byte>, cs: map<PageId, seq<PageId>>)
    requires Inv(s) && AllFit(s) && ChainsOk(s) && StubsOk(s) && EntryReady(s, e, e.key, tuple, cs)
    requires p in s.nodes && s.nodes[p].level == 0 && PathOk(s, path, p) && |path| == Top(s)
    requires InRange(s.pages[p], s.nodes[p].low, e.key) && IsPosition(s.pages[p].entries, e.key, at)
    ensures var es := PutEntry(s.pages[p].entries, at, e);
            LeafChange(s, path, p, es, at) && RowChange(s, p, es, e.key, e, tuple, cs)
  {
    hide AllFit, StubsOk, LeafChange, RowChange;
    if FoundAt(s.pages[p].entries, e.key, at) { PreparedUpdate(s, path, p, at, e, tuple, cs); }
    else { PreparedInsert(s, path, p, at, e, tuple, cs); }
  }

  /** What the caller of an insert or update gets. */
  ghost predicate RowSet(s0: Snap, t: Snap, tr0: seq<Snap>, tr: seq<Snap>, key: Key, tuple: seq<byte>, fits: bool,
                         retired0: set<PageId>, retired: set<PageId>, st: Status)
  {
    && Recorded(tr, t) && AllFit(t)
    && TableSwitches(tr0, tr, Table(s0), Table(t))
    && (st.Done? ==> Table(t) == Table(s0)[key := tuple] && Complete(t, {}) && Accounted(t, retired))
    && (st.Failed? ==> Table(t) == Table(s0) || Table(t) == Table(s0)[key := tuple])
    && (st.Failed? && fits ==> t == s0 && retired == retired0)
  }

  lemma RowSetOutcome(s0: Snap, s: Snap, t: Snap, tr0: seq<Snap>, tr1: seq<Snap>, tr: seq<Snap>, es: seq<Entry>, e: Entry,
                      tuple: seq<byte>, ids: seq<PageId>, retired0: set<PageId>, retired: set<PageId>, st: Status)
    requires Prepared(s0, s, tr0, tr1, e, tuple, ids) && AllFit(s0) && Complete(s0, {}) && Accounted(s0, retired0)
    requires EntryWritten(s, t, tr1, tr, es, e, tuple, s0.pages, ids, st)
    requires retired == if st.Done? then retired0 + Dropped(Rows(s0), e.key) else retired0
    ensures RowSet(s0, t, tr0, tr, e.key, tuple, LeafFits(es), retired0, retired, st)
  {
    PreparedTree(s0, s, tr0, tr1, e, tuple, ids);
    RowSetTrace(s0, s, t, tr0, tr1, tr, e, tuple, ids);
    if st.Done? {
      RowSetAccounted(s0, s, t, e, tuple, ids, retired0);
    } else if LeafFits(es) {
      assert t == s0;
    }
  }

  lemma RowSetTrace(s0: Snap, s: Snap, t: Snap, tr0: seq<Snap>, tr1: seq<Snap>, tr: seq<Snap>, e: Entry,
                    tuple: seq<byte>, ids: seq<PageId>)
    requires Prepared(s0, s, tr0, tr1, e, tuple, ids) && Recorded(tr, t)
    requires Switches(tr1, tr, Rows(s), SetRow(Rows(s), e.key, Some(e)))
    ensures TableSwitches(tr0, tr, Table(s0), Table(t))
  {
    var after := SetRow(Rows(s), e.key, Some(e));
    SwitchWithin(tr0, tr1, tr, tr, t, Rows(s0), after);
    TablesFollow(tr0, tr, s0, t, after);
  }

  lemma RowSetAccounted(s0: Snap, s: Snap, t: Snap, e: Entry, tuple: seq<byte>, ids: seq<PageId>, retired: set<PageId>)
    requires Accounted(s0, retired) && StubsOk(s) && Inv(t) && Rows(s) == Rows(s0)
    requires s.nodes == s0.nodes && s.chains == s0.chains && NewPages(s0.pages, s.pages, ids) && (e.overflow <==> ids != [])
    requires EntryReady(s, e, e.key, tuple, WithChain(s.chains, e, ids))
    requires Outside(s, t) && NewAreNodes(s, t) && Extends(s, t) && t.chains == WithChain(s.chains, e, ids)
    requires Rows(t) == SetRow(Rows(s), e.key, Some(e))
    ensures Accounted(t, retired + Dropped(Rows(s0), e.key))
  {
    hide Rows, StubsOk, Inv;
    var cs := WithChain(s.chains, e, ids);
    NewStubOwnsItsChain(s, e.key, e);
    if e.overflow {
      PagesWithChain(s0, s, ids, cs, FirstOf(e));
    } else {
      assert s.pages.Keys == s0.pages.Keys;
    }
    PagesAfterWrite(s, t, cs);
    AccountedAfter(s, t, e.key, Some(e), retired);
  }

  lemma FailedMake(s: Snap, tr0: seq<Snap>, tr: seq<Snap>, key: Key, tuple: seq<byte>, fits: bool, retired: set<PageId>)
    requires Recorded(tr0, s) && Recorded(tr, s) && Steady(tr0, tr, Rows(s)) && AllFit(s)
    ensures RowSet(s, s, tr0, tr, key, tuple, fits, retired, retired, Failed(Io))
  {
    SteadySwitches(tr0, tr, Rows(s), Rows(s));
    TablesFollow(tr0, tr, s, s, Rows(s));
  }

  /** The write goes wrong exactly when the caller could have told. */
  lemma TripleForetold(s0: Snap, path: seq<PageId>, p: PageId, key: Key, tuple: seq<byte>, at: nat, e: Entry, es: seq<Entry>)
    requires Inv(s0) && Owns(s0, p, key) && IsPosition(s0.pages[p].entries, key, at) && |path| == Top(s0)
    requires e.key == key && |e.stored| == |Sketch(key, tuple).stored|
    requires es == if FoundAt(s0.pages[p].entries, key, at) then s0.pages[p].entries[at := e] else Inserted(s0.pages[p].entries, at, e)
    ensures TripleRoot(path, es) <==> Triples(s0, key, tuple)
    ensures LeafFits(es) <==> LeafFits(LeafWith(s0, key, tuple))
  {
    LeafWithIs(s0, p, key, tuple, at, e);
    SketchTriples(path, LeafWith(s0, key, tuple), es);
  }

  lemma RowSetAnswers(s0: Snap, t: Snap, tr0: seq<Snap>, tr: seq<Snap>, key: Key, tuple: seq<byte>, fits: bool,
                      retired0: set<PageId>, retired: set<PageId>)
    requires RowSet(s0, t, tr0, tr, key, tuple, fits, retired0, retired, Done)
    ensures AnswersAs(t, Table(s0)[key := tuple])
  {
    RecordedNow(tr, t);
    SoundAnswers(t);
  }

  /** In the case that goes wrong, a row that the table has is not found. */
  lemma {:induction false} TripleDoesNotAnswer(s0: Snap, t: Snap, p: PageId, key: Key, tuple: seq<byte>, at: nat, e: Entry, es: seq<Entry>)
    requires Inv(s0) && Owns(s0, p, key) && IsPosition(s0.pages[p].entries, key, at) && e.key == key
    requires es == if FoundAt(s0.pages[p].entries, key, at) then s0.pages[p].entries[at := e] else Inserted(s0.pages[p].entries, at, e)
    requires OneChanged(es, at) && Sorted(es) && |Pack(es, [])| == 3
    requires Pack(es, [])[1] != [] && LostBelow(t, Pack(es, [])[1][0].key)
    ensures !AnswersAs(t, Table(s0)[key := tuple])
  {
    TripleLosesRow(es, at);
    var k := es[0].key;
    assert k in Table(s0)[key := tuple] by {
      if k != key {
        var f := s0.pages[p].entries[0];
        assert f == es[0] && f in s0.pages[p].entries;
        assert NodeOk(s0, p);
        assert EntryIn(s0, p, f);
        RowsHold(s0, f);
      }
    }
    LostDoesNotAnswer(t, Table(s0)[key := tuple], k);
  }

  /** Every row of the first of the three chunks is lost. */
  ghost predicate LosesFirst(s0: Snap, t: Snap, key: Key, tuple: seq<byte>)
    requires Inv(s0)
  {
    var chunks := Pack(LeafWith(s0, key, tuple), []);
    |chunks| == 3 && chunks[1] != [] && LostBelow(t, chunks[1][0].key)
  }

  lemma TripleLoses(s0: Snap, t: Snap, p: PageId, key: Key, tuple: seq<byte>, at: nat, e: Entry, es: seq<Entry>)
    requires Inv(s0) && Owns(s0, p, key) && IsPosition(s0.pages[p].entries, key, at)
    requires e.key == key && |e.stored| == |Sketch(key, tuple).stored|
    requires es == if FoundAt(s0.pages[p].entries, key, at) then s0.pages[p].entries[at := e] else Inserted(s0.pages[p].entries, at, e)
    requires |Pack(es, [])| == 3 && Pack(es, [])[1] != [] && LostBelow(t, Pack(es, [])[1][0].key)
    ensures LosesFirst(s0, t, key, tuple)
  {
    hide LeafWith, Pack, LostBelow;
    LeafWithIs(s0, p, key, tuple, at, e);
    SameShapePack(LeafWith(s0, key, tuple), es, [], []);
    assert SameShape(Pack(LeafWith(s0, key, tuple), [])[1], Pack(es, [])[1]);
  }

  // --- deletes and prefix updates --------------------------------------------------------------

  lemma RowStub(s: Snap, tr: seq<Snap>, key: Key)
    requires Recorded(tr, s) && key in Rows(s)
    ensures StubOk(s, Rows(s)[key]) && Rows(s)[key].key == key
  {
    RecordedNow(tr, s);
    assert StubOk(s, Rows(s)[key]);
    RowsHasEntry(s, key);
  }

  lemma DroppedPages(s: Snap, key: Key, pages: seq<PageId>)
    requires key in Rows(s)
    requires Rows(s)[key].overflow ==> FirstOf(Rows(s)[key]) in s.chains
    requires pages == if Rows(s)[key].overflow then s.chains[FirstOf(Rows(s)[key])] else []
    ensures (set x | x in pages) == ChainPagesOf(s.chains, Dropped(Rows(s), key))
  {
    hide Rows;
    var e := Rows(s)[key];
    if e.overflow { assert Dropped(Rows(s), key) == {FirstOf(e)}; }
  }

  lemma NothingSwitches(s: Snap, tr: seq<Snap>)
    requires Recorded(tr, s)
    ensures TableSwitches(tr, tr, Table(s), Table(s))
  {
    assert TableSwitchesAt(|tr|, tr, Table(s), Table(s), |tr|);
  }

  lemma AbsentRow(s: Snap, tr: seq<Snap>, key: Key)
    requires key !in Table(s)
    ensures Table(s) - {key} == Table(s) && Dropped(Rows(s), key) == {} && ChainPagesOf(s.chains, Dropped(Rows(s), key)) == {}
  {
    hide Rows;
  }

  /** One leaf write that changes the row under `key` and no chain. */
  lemma RowRewritten(s: Snap, tr: seq<Snap>, p: PageId, es: seq<Entry>, key: Key, e: Option<Entry>)
    requires Recorded(tr, s) && AllFit(s) && Complete(s, {}) && p in s.nodes && p in s.pages && s.pages[p].Leaf?
    requires var t := Rewrite(s, p, es);
             && Inv(t) && Extends(s, t) && LeafFits(es)
             && Rows(t) == SetRow(Rows(s), key, e) && OwnChain(Rows(s), key, e)
             && (e.Some? ==> StubOk(t, e.value))
    ensures var t := Rewrite(s, p, es);
            && Step(s, t) && Recorded(tr + [t], t) && AllFit(t) && Complete(t, {})
            && Table(t) == SetValue(Table(s), key, ValueIn(t, e))
            && TableSwitches(tr, tr + [t], Table(s), Table(t))
  {
    hide Inv, Rows, Complete, StubsOk, ChainsOk, Table;
    var t := Rewrite(s, p, es);
    RecordedNow(tr, s);
    RewriteComplete(s, t, p);
    assert AllFit(t);
    LeafKeepsChains(s, p, es);
    TableChanges(s, t, key, e);
    TraceGrows(tr, s, t);
    assert TableSwitchesAt(|tr|, tr + [t], Table(s), Table(t), |tr|);
  }

  lemma LeafKeepsChains(s: Snap, p: PageId, es: seq<Entry>)
    requires ChainsOk(s) && p in s.nodes && p in s.pages && s.pages[p].Leaf?
    ensures KeepsChains(s, Rewrite(s, p, es)) && ChainsOk(Rewrite(s, p, es))
  {
    var t := Rewrite(s, p, es);
    ChainsOutside(s, t);
    ChainsOkKept(s, t);
  }

  lemma RowRemoved(s: Snap, tr: seq<Snap>, p: PageId, at: nat, key: Key, retired: set<PageId>)
    requires Recorded(tr, s) && AllFit(s) && Complete(s, {}) && Accounted(s, retired) && Inv(s) && Owns(s, p, key)
    requires FoundAt(s.pages[p].entries, key, at)
    ensures var t := Rewrite(s, p, Removed(s.pages[p].entries, at));
            && Step(s, t) && Recorded(tr + [t], t) && AllFit(t) && Complete(t, {})
            && Table(t) == Table(s) - {key} && Accounted(t, retired + Dropped(Rows(s), key))
            && TableSwitches(tr, tr + [t], Table(s), Table(t))
  {
    hide Rows, AllFit, Complete, StubsOk, Table, Recorded, LeafFits;
    var es := Removed(s.pages[p].entries, at);
    RemovedLeaf(s, p, at, key);
    RecordedNow(tr, s);
    RowRewritten(s, tr, p, es, key, None);
    AccountedAfter(s, Rewrite(s, p, es), key, None, retired);
  }

  lemma RemovedLeaf(s: Snap, p: PageId, at: nat, key: Key)
    requires AllFit(s) && Inv(s) && Owns(s, p, key) && FoundAt(s.pages[p].entries, key, at)
    ensures var es := Removed(s.pages[p].entries, at);
            var t := Rewrite(s, p, es);
            && p in s.pages && s.pages[p].Leaf? && LeafFits(es)
            && Inv(t) && Extends(s, t) && Rows(t) == SetRow(Rows(s), key, None)
  {
    hide Rows;
    var n := s.pages[p];
    var es := Removed(n.entries, at);
    assert NodeOk(s, p) && NodeFits(n);
    RemovedEntries(n, s.nodes[p].low, at, key);
    RemovedFits(n.entries, at);
    RewriteOneRow(s, p, es, key);
  }

  lemma PrefixLengths(s: Snap, key: Key, e: Entry)
    requires key in Rows(s) && e == Rows(s)[key] && StubOk(s, e)
    ensures e.overflow ==> |e.stored| == OVERFLOW_STUB
    ensures !e.overflow ==> Table(s)[key] == e.stored
    ensures PrefixLimit(Table(s)[key]) == if e.overflow then OVERFLOW_INLINE_PREFIX else |e.stored|
  {
  }

  /** Overwriting a prefix of the stored bytes overwrites a prefix of the value. */
  lemma PrefixedValue(s: Snap, t: Snap, e: Entry, prefix: seq<byte>)
    requires StubOk(s, e) && |prefix| <= |e.stored| && (e.overflow ==> |prefix| <= OVERFLOW_INLINE_PREFIX)
    requires ChainsOk(s) && KeepsChains(s, t)
    ensures var f := e.(stored := prefix + e.stored[|prefix|..]);
            && StubOk(t, f) && (e.overflow ==> FirstOf(f) == FirstOf(e)) && |prefix| <= |ValueOf(s, e)|
            && ValueOf(t, f) == prefix + ValueOf(s, e)[|prefix|..]
  {
    var f := e.(stored := prefix + e.stored[|prefix|..]);
    if e.overflow {
      ValueKept(s, t, e);
      assert f.stored[24..28] == e.stored[24..28] && f.stored[28..] == e.stored[28..];
      assert f.stored[..24] == prefix + e.stored[..24][|prefix|..];
    }
  }

  lemma RowPrefixed(s: Snap, tr: seq<Snap>, p: PageId, at: nat, key: Key, prefix: seq<byte>, retired: set<PageId>)
    requires Recorded(tr, s) && AllFit(s) && Complete(s, {}) && Accounted(s, retired) && Inv(s) && Owns(s, p, key)
    requires FoundAt(s.pages[p].entries, key, at) && key in Rows(s) && Rows(s)[key] == s.pages[p].entries[at]
    requires var e := s.pages[p].entries[at];
             |prefix| <= |e.stored| && (e.overflow ==> |prefix| <= OVERFLOW_INLINE_PREFIX)
    ensures var e := s.pages[p].entries[at];
            var t := Rewrite(s, p, s.pages[p].entries[at := e.(stored := prefix + e.stored[|prefix|..])]);
            && Step(s, t) && Recorded(tr + [t], t) && AllFit(t) && Complete(t, {}) && Accounted(t, retired)
            && |prefix| <= |Table(s)[key]|
            && Table(t) == Table(s)[key := prefix + Table(s)[key][|prefix|..]]
            && TableSwitches(tr, tr + [t], Table(s), Table(t))
  {
    hide Rows, Complete, Recorded, LeafFits;
    var n := s.pages[p];
    var e := n.entries[at];
    var f := e.(stored := prefix + e.stored[|prefix|..]);
    var es := n.entries[at := f];
    var t := Rewrite(s, p, es);
    assert NodeOk(s, p) && NodeFits(n);
    RecordedNow(tr, s);
    UpdatedEntries(n, s.nodes[p].low, at, f);
    ResizedFits(n.entries, at, f);
    RewriteOneRow(s, p, es, key);
    RowStub(s, tr, key);
    LeafKeepsChains(s, p, es);
    PrefixedValue(s, t, e, prefix);
    SameStubOwns(s, key, f);
    RowRewritten(s, tr, p, es, key, Some(f));
    SameStubAccounted(s, t, key, f, retired);
  }

  lemma SameStubOwns(s: Snap, key: Key, f: Entry)
    requires StubsOk(s) && key in Rows(s) && f.key == key && f.overflow == Rows(s)[key].overflow
    requires f.overflow ==> FirstOf(f) == FirstOf(Rows(s)[key])
    ensures OwnChain(Rows(s), key, Some(f))
  {
    forall l | l in Rows(s) && l != key && Rows(s)[l].overflow
      ensures f.overflow ==> FirstOf(Rows(s)[l]) != FirstOf(f)
    {
      assert StubsApart(Rows(s), l, key);
    }
  }

  lemma SameStubAccounted(s: Snap, t: Snap, key: Key, f: Entry, retired: set<PageId>)
    requires StubsOk(s) && Accounted(s, retired) && key in Rows(s) && OwnChain(Rows(s), key, Some(f))
    requires f.overflow == Rows(s)[key].overflow && (f.overflow ==> FirstOf(f) == FirstOf(Rows(s)[key]))
    requires t.chains == s.chains && t.nodes == s.nodes && t.pages.Keys == s.pages.Keys
    requires Rows(t) == SetRow(Rows(s), key, Some(f))
    ensures Accounted(t, retired)
  {
    hide Rows;
    LiveChanges(s, key, Some(f));
    assert Dropped(Rows(s), key) == Gained(Some(f));
    assert Dropped(Rows(s), key) <= LiveChains(Rows(s));
  }

  lemma EmptyTree(s: Snap)
    requires s == Snap(map[0 := Leaf(None, INF_KEY, [])], 0, map[0 := Place(0, 0)], map[])
    ensures Recorded([s], s) && AllFit(s) && Complete(s, {}) && Table(s) == map[] && Accounted(s, {})
  {
    assert NodeOk(s, 0);
    assert Apart(s, 0, 0);
    assert Inv(s);
    assert Rows(s) == map[];
    assert ChainsOk(s) && StubsOk(s) && KeepsChains(s, s) && Extends(s, s);
  }

  /** How much of a value may be overwritten in place: all of an inline value, the inline prefix
      of a chained one. */
  function PrefixLimit(value: seq<byte>): nat {
    if |value| > MAX_TUPLE then OVERFLOW_INLINE_PREFIX else |value|
  }

  // --- reclaiming ------------------------------------------------------------------------------

  lemma CompleteSame(s: Snap, t: Snap)
    requires Complete(s, {}) && t.nodes == s.nodes && t.root == s.root
    requires forall p :: p in s.nodes ==> p in s.pages && p in t.pages && t.pages[p] == s.pages[p]
    ensures Complete(t, {})
  {
    var r := t.(chains := s.chains);
    forall c | c in t.nodes
      ensures c == t.root || Published(t, c)
    {
      assert Published(s, c) || c == s.root;
      if Published(s, c) { var p :| ParentOf(s, p, c); assert ParentOf(t, p, c); }
    }
  }

  /** Without a retired chain the tree is the same tree. */
  lemma ForgetChain(tr: seq<Snap>, s: Snap, first: PageId, retired: set<PageId>)
    requires Recorded(tr, s) && Accounted(s, retired) && first in retired && first in s.chains
    ensures var t := s.(chains := s.chains - {first});
            && Recorded([t], t) && Rows(t) == Rows(s) && Table(t) == Table(s)
            && Distinct(s.chains[first])
            && forall i :: 0 <= i < |s.chains[first]| ==>
                 s.chains[first][i] in s.pages && s.chains[first][i] !in s.nodes && NotChained(t.chains, s.chains[first][i])
  {
    var t := s.(chains := s.chains - {first});
    RecordedNow(tr, s);
    OutsidePage(s, t);
    ForgottenChainsOk(s, first);
    ForgottenStubs(s, first, retired);
    assert Extends(t, t) && KeepsChains(t, t) by {
      forall f | f in t.chains ensures ChainKept(t, t, f) {}
    }
    var ids := s.chains[first];
    assert ChainOk(s, first);
    forall i | 0 <= i < |ids|
      ensures ids[i] in s.pages && ids[i] !in s.nodes && NotChained(t.chains, ids[i])
    {
      assert ids[i] in ids;
      ChainPagesIn(s, first, ids[i]);
      forall f | f in t.chains ensures ids[i] !in t.chains[f] { assert ChainsApart(s, first, f); }
    }
  }

  lemma ForgottenChainsOk(s: Snap, first: PageId)
    requires ChainsOk(s)
    ensures ChainsOk(s.(chains := s.chains - {first}))
  {
    var t := s.(chains := s.chains - {first});
    forall f | f in t.chains
      ensures ChainOk(t, f)
    {
      assert ChainOk(s, f);
      forall i | 0 <= i < |t.chains[f]| ensures ChainPage(t, t.chains[f], i) { assert ChainPage(s, s.chains[f], i); }
    }
    forall f, g | f in t.chains && g in t.chains
      ensures ChainsApart(t, f, g)
    {
      assert ChainsApart(s, f, g);
    }
  }

  lemma ForgottenStubs(s: Snap, first: PageId, retired: set<PageId>)
    requires StubsOk(s) && Accounted(s, retired) && first in retired
    requires Rows(s.(chains := s.chains - {first})) == Rows(s)
    ensures var t := s.(chains := s.chains - {first});
            StubsOk(t) && Table(t) == Table(s)
  {
    hide Rows;
    var t := s.(chains := s.chains - {first});
    forall k | k in Rows(t)
      ensures StubOk(t, Rows(t)[k]) && ValueOf(t, Rows(t)[k]) == ValueOf(s, Rows(s)[k])
    {
      assert StubOk(s, Rows(s)[k]);
      assert Rows(s)[k].overflow ==> FirstOf(Rows(s)[k]) in LiveChains(Rows(s));
    }
    forall k, l | k in Rows(t) && l in Rows(t)
      ensures StubsApart(Rows(t), k, l)
    {
      assert StubsApart(Rows(s), k, l);
    }
  }

  lemma Reclaimed(s0: Snap, s: Snap, t: Snap, tr: seq<Snap>, trt: seq<Snap>, first: PageId, retired: set<PageId>)
    requires Inv(s0) && AllFit(s0) && Complete(s0, {}) && Accounted(s0, retired) && first in retired && first in s0.chains
    requires s == s0.(chains := s0.chains - {first}) && Rows(s) == Rows(s0) && Table(s) == Table(s0)
    requires forall x :: x in s0.chains[first] ==> x !in s0.nodes
    requires forall x :: x in s0.chains[first] ==> NotChained(s.chains, x)
    requires t == s.(pages := s.pages - (set x | x in s0.chains[first])) && Rows(t) == Rows(s)
    requires Recorded(tr, s) && Recorded(trt, t) && tr <= trt
    ensures AllFit(t) && Complete(t, {}) && Accounted(t, retired - {first}) && Table(t) == Table(s0)
  {
    hide Rows, Table, Inv, Complete, Recorded, AllFit;
    SameNodePages(s0, t);
    TableAfterSteady(s, t, tr, trt);
    ReclaimedPages(s0, t.chains, first);
    ReclaimedAccounts(s0, t, first, retired);
  }

  lemma SameNodePages(s: Snap, t: Snap)
    requires Inv(s) && AllFit(s) && Complete(s, {}) && t.nodes == s.nodes && t.root == s.root
    requires forall x :: x in s.nodes && x in s.pages ==> x in t.pages && t.pages[x] == s.pages[x]
    ensures AllFit(t) && Complete(t, {})
  {
    CompleteSame(s, t);
  }

  lemma ReclaimedAccounts(s0: Snap, t: Snap, first: PageId, retired: set<PageId>)
    requires Accounted(s0, retired) && first in retired && first in s0.chains && t.nodes == s0.nodes && Rows(t) == Rows(s0)
    requires t.chains == s0.chains - {first} && t.pages == s0.pages - (set x | x in s0.chains[first])
    requires forall x :: x in s0.chains[first] ==> x !in s0.nodes
    requires var gone := set x | x in s0.chains[first];
             && ChainPagesOf(s0.chains, s0.chains.Keys) == ChainPagesOf(t.chains, t.chains.Keys) + gone
             && gone !! ChainPagesOf(t.chains, t.chains.Keys)
    ensures Accounted(t, retired - {first})
  {
    hide Rows, ChainPagesOf;
  }

  lemma ReclaimedPages(s0: Snap, chains: map<PageId, seq<PageId>>, first: PageId)
    requires first in s0.chains && chains == s0.chains - {first}
    requires forall x :: x in s0.chains[first] ==> NotChained(chains, x)
    ensures var gone := set x | x in s0.chains[first];
            && ChainPagesOf(s0.chains, s0.chains.Keys) == ChainPagesOf(chains, chains.Keys) + gone
            && gone !! ChainPagesOf(chains, chains.Keys)
  {
    var gone := set x | x in s0.chains[first];
    forall x | x in ChainPagesOf(s0.chains, s0.chains.Keys)
      ensures x in ChainPagesOf(chains, chains.Keys) + gone
    {
      var f :| f in s0.chains && x in s0.chains[f];
      if f != first { assert f in chains; }
    }
    forall x | x in gone
      ensures x !in ChainPagesOf(chains, chains.Keys)
    {
      assert NotChained(chains, x);
    }
  }

  // --- whole runs ------------------------------------------------------------------------------

  datatype Op =
    | InsertRow(key: Key, tuple: seq<byte>)
    | UpdateRow(key: Key, tuple: seq<byte>)
    | PrefixRow(key: Key, prefix: seq<byte>)
    | DeleteRow(key: Key)
    | GetRow(key: Key)
    | ScanRows(start: Key)

  datatype Answer =
    | Accepted
    | Refused(error: Error)
    | Deleted(found: bool)
    | Value(value: Option<seq<byte>>)
    | Listed(rows: seq<(Key, seq<byte>)>)

  datatype Stop = Finished | IoFailed | RootTriples

  /** What an ordered map answers to `op`, and what it holds afterwards. */
  ghost predicate Meets(table: map<Key, seq<byte>>, op: Op, answer: Answer, after: map<Key, seq<byte>>) {
    match op
    case InsertRow(key, tuple) =>
      if key in table then answer == Refused(DuplicateKey) && after == table
      else if |tuple| > MAX_CHAINED then answer == Refused(TooLarge) && after == table
      else answer == Accepted && after == table[key := tuple]
    case UpdateRow(key, tuple) =>
      if key !in table then answer == Refused(MissingKey) && after == table
      else if |tuple| > MAX_CHAINED then answer == Refused(TooLarge) && after == table
      else answer == Accepted && after == table[key := tuple]
    case PrefixRow(key, prefix) =>
      if key !in table then answer == Refused(MissingKey) && after == table
      else if |prefix| > (if |table[key]| > 8163 then 24 else |table[key]|) then answer == Refused(PrefixTooLong) && after == table
      else answer == Accepted && |prefix| <= |table[key]| && after == table[key := prefix + table[key][|prefix|..]]
    case DeleteRow(key) => answer == Deleted(key in table) && after == table - {key}
    case GetRow(key) => answer == Value(if key in table then Some(table[key]) else None) && after == table
    case ScanRows(start) => answer.Listed? && Lists(answer.rows, table, start) && after == table
  }

  /** After an operation stopped by a failed write: it was not done, or it was. */
  ghost predicate HalfDone(table: map<Key, seq<byte>>, op: Op, after: map<Key, seq<byte>>) {
    after == table || exists answer :: Meets(table, op, answer, after)
  }

  ghost predicate OpTriples(s: Snap, op: Op)
    requires Inv(s)
  {
    (op.InsertRow? || op.UpdateRow?) && Triples(s, op.key, op.tuple)
  }

  ghost predicate RunsTo(table: map<Key, seq<byte>>, ops: seq<Op>, answers: seq<Answer>, after: map<Key, seq<byte>>) {
    && |ops| == |answers|
    && if ops == [] then after == table
       else
         var n := |ops| - 1;
         exists mid :: RunsTo(table, ops[..n], answers[..n], mid) && Meets(mid, ops[n], answers[n], after)
  }

  lemma {:induction false} RunsToNothing(table: map<Key, seq<byte>>)
    ensures RunsTo(table, [], [], table)
  {
  }

  lemma {:induction false} RunsToNext(table: map<Key, seq<byte>>, ops: seq<Op>, answers: seq<Answer>, mid: map<Key, seq<byte>>,
                   op: Op, answer: Answer, after: map<Key, seq<byte>>)
    requires RunsTo(table, ops, answers, mid) && Meets(mid, op, answer, after)
    ensures RunsTo(table, ops + [op], answers + [answer], after)
  {
    assert (ops + [op])[..|ops|] == ops && (answers + [answer])[..|ops|] == answers;
  }

  /** A root that is a leaf is the only leaf, so it owns every row id. */
  lemma RootLeafOwns(s: Snap, key: Key, tuple: seq<byte>)
    requires Inv(s) && Complete(s, {}) && s.pages[s.root].Leaf?
    ensures LeafWith(s, key, tuple) == Put(s.pages[s.root].entries, Sketch(key, tuple))
  {
    OwnerExists(s, key);
    var q :| Owns(s, q, key) && LeafWith(s, key, tuple) == Put(s.pages[q].entries, Sketch(key, tuple));
    if q != s.root {
      assert Published(s, q);
      var p :| ParentOf(s, p, q);
      ParentLevel(s, p, q);
    }
  }

  // --- a root leaf that overflows into three ---------------------------------------------------

  function ThreeEntries(middle: nat): seq<Entry> {
    [Entry(1, Zeros(4000), false), Entry(2, Zeros(middle), false), Entry(3, Zeros(4000), false)]
  }

  lemma ThreeTotal(middle: nat)
    ensures TotalSize(ThreeEntries(middle)) == 8030 + middle
  {
    var es := ThreeEntries(middle);
    assert es == [es[0]] + ([es[1]] + [es[2]]);
    TotalConcat([es[0]], [es[1]] + [es[2]]);
    TotalConcat([es[1]], [es[2]]);
    TotalOne(es[0]);
    TotalOne(es[1]);
    TotalOne(es[2]);
  }

  lemma ThreePack(middle: nat)
    requires 4200 <= middle <= MAX_TUPLE
    ensures |Pack(ThreeEntries(middle), [])| == 3 && Pack(ThreeEntries(middle), [])[1] == [ThreeEntries(middle)[1]]
  {
    hide TotalSize;
    var es := ThreeEntries(middle);
    var a, b, c := es[0], es[1], es[2];
    TotalOne(a);
    TotalOne(b);
    TotalOne(c);
    assert es[1..] == [b, c] && [b, c][1..] == [c] && [c][1..] == [];
    assert [] + [a] == [a];
    assert Pack([c], [b]) == [[b]] + Pack([], [c]);
    assert Pack([b, c], [a]) == [[a]] + Pack([c], [b]);
    assert Pack(es, []) == Pack([b, c], [a]);
  }

  ghost function ThreeRowTree(): Snap {
    Snap(map[0 := Leaf(None, INF_KEY, ThreeEntries(10))], 0, map[0 := Place(0, 0)], map[])
  }

  lemma ThreeRowsSound()
    ensures var s := ThreeRowTree();
            Inv(s) && AllFit(s) && Complete(s, {}) && Owns(s, 0, 2)
  {
    hide TotalSize;
    var s := ThreeRowTree();
    ThreeTotal(10);
    assert NodeOk(s, 0) && Apart(s, 0, 0);
  }

  /** A concrete case: a sound one-leaf tree with rows of 4000, 10 and 4000 bytes, whose middle
      row is updated to 8000 bytes. */
  lemma ThreeRowsTriple()
    ensures var s := ThreeRowTree();
            && Recorded([s], s) && AllFit(s) && Complete(s, {}) && Accounted(s, {})
            && 2 in Rows(s) && Triples(s, 2, Zeros(8000))
  {
    hide Inv, Rows, LeafWith, AllFit, Complete;
    var s := ThreeRowTree();
    var es := ThreeEntries(10);
    ThreeRowsSound();
    ThreeRowStubs(s);
    assert KeepsChains(s, s) && Extends(s, s);
    assert es[1] in es;
    assert EntryIn(s, 0, es[1]);
    RowsHold(s, es[1]);
    LeafWithOwner(s, 0, 2, Zeros(8000));
    ThreePut();
  }

  lemma ThreePut()
    ensures var es := Put(ThreeEntries(10), Sketch(2, Zeros(8000)));
            !LeafFits(es) && |Pack(es, [])| == 3 && Pack(es, [])[1] != [] && Pack(es, [])[1][0].key == 2
  {
    hide TotalSize, Pack;
    ThreeTotal(8000);
    ThreePack(8000);
    PutInserts(ThreeEntries(10), 1, Sketch(2, Zeros(8000)));
    assert Put(ThreeEntries(10), Sketch(2, Zeros(8000))) == ThreeEntries(8000);
  }

  lemma ThreeRowStubs(s: Snap)
    requires s == ThreeRowTree() && Inv(s)
    ensures ChainsOk(s) && StubsOk(s) && LiveChains(Rows(s)) == {}
  {
    forall k | k in Rows(s)
      ensures !Rows(s)[k].overflow && |Rows(s)[k].stored| <= MAX_TUPLE
    {
      RowsHasEntry(s, k);
      var p :| EntryIn(s, p, Rows(s)[k]);
    }
  }
}
