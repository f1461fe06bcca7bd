/** The moments of a run of the clustered tree: what one page write may change, and what each
    operation's sequence of writes amounts to. */
module BLinkMoments {
  import opened Bytes
  import opened Distinctness
  import opened BLinkNode
  import opened BLinkInvariant
  import opened BLinkReader
  import opened BLinkSteps
  import opened BLinkPacking
  import opened BLinkSplit
  import opened BLinkChain
  import opened BLinkPublish
  import opened BLinkLeafWrite
  import opened BLinkRows

  datatype Error = Io | DuplicateKey | MissingKey | TooLarge | PrefixTooLong

  datatype Status = Done | Failed(error: Error)

  datatype Result<+T> = Ok(value: T) | Err(error: Error)

  /** What a freshly allocated, all-zero page decodes to. */
  const ZERO_PAGE: Node := Leaf(Some(0), 0, [])

  // --- moments ---------------------------------------------------------------------------------

  /** One page write (or root change) between two moments of a run. */
  ghost predicate Step(s: Snap, t: Snap) {
    Inv(t) && Extends(s, t) && ChainsOk(t) && KeepsChains(s, t) && StubsOk(t)
  }

  /** `tr` records a sound run that has just reached `s`. */
  ghost predicate Recorded(tr: seq<Snap>, s: Snap) {
    tr != [] && tr[|tr| - 1] == s && Trace(tr) && ChainTrace(tr)
  }

  lemma RecordedNow(tr: seq<Snap>, s: Snap)
    requires Recorded(tr, s)
    ensures Inv(s) && ChainsOk(s) && StubsOk(s)
  {
    assert ChainsOk(tr[|tr| - 1]) && StubsOk(tr[|tr| - 1]);
  }

  lemma TraceGrows(tr: seq<Snap>, s: Snap, t: Snap)
    requires Recorded(tr, s) && Step(s, t)
    ensures Recorded(tr + [t], t)
  {
    hide Inv, ChainsOk, StubsOk;
    var all := tr + [t];
    var last := |tr| - 1;
    forall i, j | 0 <= i <= j < |all|
      ensures Extends(all[i], all[j])
    {
      if i < |tr| { assert Extends(tr[i], tr[last]); }
    }
    forall i, j | 0 <= i <= j < |all|
      ensures KeepsChains(all[i], all[j])
    {
      if j < |tr| {
        assert KeepsChains(tr[i], tr[j]);
      } else if i < |tr| {
        assert KeepsChains(tr[i], tr[last]);
        KeepsChainsThrough(tr[i], s, t);
      } else {
        forall f | f in t.chains ensures ChainKept(t, t, f) {}
      }
    }
    forall i | 0 <= i < |all|
      ensures ChainsOk(all[i]) && StubsOk(all[i])
    {
      if i < |tr| { assert ChainsOk(tr[i]) && StubsOk(tr[i]); }
    }
  }

  lemma KeepsChainsThrough(s: Snap, t: Snap, u: Snap)
    requires KeepsChains(s, t) && KeepsChains(t, u)
    ensures KeepsChains(s, u)
  {
    forall f | f in s.chains
      ensures ChainKept(s, u, f)
    {
      assert ChainKept(s, t, f) && ChainKept(t, u, f);
    }
  }

  /** The moments after `tr0` all show the rows `rows`. */
  ghost predicate Steady(tr0: seq<Snap>, tr: seq<Snap>, rows: map<Key, Entry>) {
    tr0 <= tr && forall i :: |tr0| <= i < |tr| ==> Rows(tr[i]) == rows
  }

  /** Pages that are no chain pages can be written without touching a chain. */
  lemma WriteStep(s: Snap, t: Snap, id: PageId, n: Node)
    requires ChainsOk(s) && StubsOk(s) && Inv(t) && Extends(s, t) && t.chains == s.chains && Rows(t) == Rows(s)
    requires t.pages == s.pages[id := n]
    requires id in s.pages ==> !s.pages[id].Overflow?
    requires forall x :: x in t.nodes ==> x in s.nodes || x == id || (x in s.pages && !s.pages[x].Overflow?)
    ensures Step(s, t)
  {
    forall f | f in s.chains
      ensures ChainKept(s, t, f)
    {
      assert ChainOk(s, f);
      forall x | x in s.chains[f]
        ensures x != id
      {
        ChainPagesIn(s, f, x);
      }
    }
    ChainsOkKept(s, t);
    TableKept(s, t);
  }

  lemma OutsideStep(s: Snap, t: Snap, id: PageId, n: Node)
    requires Inv(s) && ChainsOk(s) && StubsOk(s) && id !in s.nodes && t == s.(pages := s.pages[id := n])
    requires id in s.pages ==> !s.pages[id].Overflow?
    ensures Step(s, t) && SameTree(s, t) && Rows(t) == Rows(s)
  {
    OutsidePage(s, t);
    WriteStep(s, t, id, n);
  }

  /** Pages outside the tree stay; pages that appear belong to the tree. */
  ghost predicate Outside(s: Snap, t: Snap) {
    forall x :: x in s.pages && x !in s.nodes ==> x in t.pages && t.pages[x] == s.pages[x] && x !in t.nodes
  }

  ghost predicate NewAreNodes(s: Snap, t: Snap) {
    forall x :: x in t.pages && x !in s.pages ==> x in t.nodes
  }

  /** How a publish ends: done, or stopped by a failed page write with the tree still sound. */
  ghost predicate PublishOutcome(s: Snap, t: Snap, tr0: seq<Snap>, tr: seq<Snap>,
                                 left: PageId, right: PageId, pending: set<PageId>, st: Status)
    requires RootOk(s) && left in s.nodes
  {
    && Recorded(tr, t) && Steady(tr0, tr, Rows(s))
    && AllFit(t) && Outside(s, t)
    && (st.Done? ==> PublishDone(s, t, left, right, pending) && NewAreNodes(s, t))
  }

  lemma NodesHavePages(tr: seq<Snap>, s: Snap)
    requires Recorded(tr, s)
    ensures forall p :: p in s.nodes ==> p in s.pages
  {
  }

  /** A publish that could not write its next page leaves the tree as it was. */
  lemma StalledOutcome(s0: Snap, s: Snap, tr0: seq<Snap>, tr: seq<Snap>, path: seq<PageId>,
                       left: PageId, right: PageId, pending: set<PageId>)
    requires Recorded(tr, s) && Steady(tr0, tr, Rows(s0)) && SameTree(s0, s) && Outside(s0, s)
    ensures CanPublish(s0, path, left, right, pending) ==>
              PublishOutcome(s0, s, tr0, tr, left, right, pending, Failed(Io))
  {
    if CanPublish(s0, path, left, right, pending) { SameTreeKeeps(s0, s, pending); }
  }

  lemma GrownOutcome(s0: Snap, s: Snap, tr0: seq<Snap>, tr: seq<Snap>,
                     left: PageId, sep: Key, right: PageId, r: PageId, pending: set<PageId>)
    requires Recorded(tr, s) && Steady(tr0, tr, Rows(s0)) && SameTree(s0, s) && Outside(s0, s)
    requires left in s0.nodes && left in s0.pages && IsNode(s0.pages[left]) && sep == s0.pages[left].high
    requires r !in s0.pages && r !in s0.nodes && s.pages == s0.pages[r := FreshRoot(left, sep, right)]
    ensures var t := GrowRoot(s0, r, left, right);
            && t == s.(root := r, nodes := s.nodes[r := Place(s.nodes[left].level + 1, s.nodes[left].low)])
            && (CanPublish(s0, [], left, right, pending) ==>
                  PublishOutcome(s0, t, tr0, tr + [t], left, right, pending, Done))
  {
    hide Inv, ChainsOk, AllFit, Rows, Complete, KeptBelow, Recorded, KeepsChains;
    var t := GrowRoot(s0, r, left, right);
    if CanPublish(s0, [], left, right, pending) {
      PublishGrows(s0, left, right, r, pending);
      SameTreeKeeps(s0, s, pending);
      var page := FreshRoot(left, sep, right);
      assert t.pages == s.pages[r := page];
      RecordedNow(tr, s);
      WriteStep(s, t, r, page);
      TraceGrows(tr, s, t);
    }
  }

  lemma FittedOutcome(s: Snap, tr: seq<Snap>, path: seq<PageId>, p: PageId, left: PageId, right: PageId, pending: set<PageId>)
    requires Recorded(tr, s) && CanPublish(s, path, left, right, pending) && ParentOf(s, p, left)
    requires InteriorFits(WithSlot(s.pages[p], left, s.pages[left].high, right).slots)
    ensures var t := InsertSlot(s, p, left, right);
            && Step(s, t)
            && PublishOutcome(s, s, tr, tr, left, right, pending, Failed(Io))
            && PublishOutcome(s, t, tr, tr + [t], left, right, pending, Done)
  {
    var t := InsertSlot(s, p, left, right);
    RecordedNow(tr, s);
    PublishFits(s, path, p, left, right, pending);
    WriteStep(s, t, p, t.pages[p]);
    TraceGrows(tr, s, t);
  }

  /** The new right half `q` of the over-full parent `p` is written; `p` is about to be. */
  ghost predicate Splitting(s0: Snap, s: Snap, path: seq<PageId>, p: PageId, page: Node,
                            left: PageId, right: PageId, q: PageId, pending: set<PageId>) {
    && SameTree(s0, s) && Outside(s0, s)
    && path != [] && CanPublish(s0, path, left, right, pending) && ParentOf(s0, p, left)
    && path[|path| - 1] in s0.nodes && s0.nodes[path[|path| - 1]].low <= s0.nodes[p].low
    && page == WithSlot(s0.pages[p], left, s0.pages[left].high, right) && !InteriorFits(page.slots)
    && q !in s0.pages && q !in s0.nodes && s.pages == s0.pages[q := UpperHalf(page, |page.slots| / 2)]
  }

  lemma SplitStep(s0: Snap, s: Snap, tr: seq<Snap>, path: seq<PageId>, p: PageId, page: Node,
                  left: PageId, right: PageId, q: PageId, pending: set<PageId>)
    requires Splitting(s0, s, path, p, page, left, right, q, pending) && Recorded(tr, s)
    ensures CanPublish(s, path, left, right, pending) && ParentOf(s, p, left) && p in s.nodes
    ensures left in s.pages && IsNode(s.pages[left]) && p in s.pages && s.pages[p].Interior?
    ensures var u := ParentSplit(s, p, left, right, q);
            var mid := |page.slots| / 2;
            && u.pages == s.pages[p := LowerHalf(page, mid, q)] && u.root == s.root && u.chains == s.chains
            && p in u.nodes && p in u.pages && u.pages[p] == LowerHalf(page, mid, q)
            && Step(s, u)
            && CanPublish(u, path[..|path| - 1], p, q, pending - {right} + {q})
  {
    hide AllFit, Complete, StubsOk, Rows, PathOk, RoomFor, KeptBelow, ChainsOk;
    var u := ParentSplit(s, p, left, right, q);
    SameTreeCanPublish(s0, s, path, left, right, pending);
    SplitThenPublish(s, path, p, left, right, q, pending);
    RecordedNow(tr, s);
    assert u.pages == s.pages[p := LowerHalf(page, |page.slots| / 2, q)];
    WriteStep(s, u, p, u.pages[p]);
  }

  lemma CascadeOutcome(s0: Snap, s: Snap, t: Snap, tr0: seq<Snap>, tr: seq<Snap>, trt: seq<Snap>,
                       path: seq<PageId>, p: PageId, page: Node,
                       left: PageId, right: PageId, q: PageId, pending: set<PageId>, st: Status)
    requires Splitting(s0, s, path, p, page, left, right, q, pending) && Recorded(tr, s) && Steady(tr0, tr, Rows(s0))
    requires p in s.nodes && p in s.pages && s.pages[p].Interior? && left in s.pages && IsNode(s.pages[left])
    requires var u := ParentSplit(s, p, left, right, q);
             && RootOk(u) && p in u.nodes
             && PublishOutcome(u, t, tr + [u], trt, p, q, pending - {right} + {q}, st)
    ensures PublishOutcome(s0, t, tr0, trt, left, right, pending, st)
  {
    hide ChainsOk, AllFit, Rows, KeepsChains, Complete, PublishDone, Recorded, WithSlot, InteriorFits, ParentSplit, Outside, Steady, NewAreNodes;
    var u := ParentSplit(s, p, left, right, q);
    SplitStep(s0, s, tr, path, p, page, left, right, q, pending);
    SplitRows(s0, s, path, p, page, left, right, q, pending);
    if st.Done? {
      CascadePublished(s0, s, t, path, p, page, left, right, q, pending);
    }
    OutcomeBelow(s0, u, t, tr0, tr, trt, p, left, right, q, pending, pending - {right} + {q}, st);
  }

  lemma OutcomeBelow(s0: Snap, u: Snap, t: Snap, tr0: seq<Snap>, tr: seq<Snap>, trt: seq<Snap>, p: PageId,
                     left: PageId, right: PageId, q: PageId, pending: set<PageId>, above: set<PageId>, st: Status)
    requires RootOk(s0) && left in s0.nodes && RootOk(u) && p in u.nodes
    requires Steady(tr0, tr, Rows(s0)) && Rows(u) == Rows(s0) && Outside(s0, u)
    requires q in u.nodes && q !in s0.pages && forall x :: x in u.pages ==> x in s0.pages || x == q
    requires PublishOutcome(u, t, tr + [u], trt, p, q, above, st)
    requires st.Done? ==> PublishDone(s0, t, left, right, pending) && Extends(u, t)
    ensures PublishOutcome(s0, t, tr0, trt, left, right, pending, st)
  {
    hide Recorded, Rows, AllFit, PublishDone;
    forall i | |tr0| <= i < |trt|
      ensures Rows(trt[i]) == Rows(s0)
    {
      if i < |tr| { assert trt[i] == tr[i]; }
      else if i == |tr| { assert trt[i] == (tr + [u])[i]; }
    }
  }

  lemma SplitRows(s0: Snap, s: Snap, path: seq<PageId>, p: PageId, page: Node,
                  left: PageId, right: PageId, q: PageId, pending: set<PageId>)
    requires Splitting(s0, s, path, p, page, left, right, q, pending)
    requires CanPublish(s, path, left, right, pending) && ParentOf(s, p, left) && p in s.nodes
    ensures var u := ParentSplit(s, p, left, right, q);
            Rows(u) == Rows(s0) && Outside(s0, u) && u.nodes.Keys == s0.nodes.Keys + {q}
            && (forall x :: x in u.pages ==> x in s0.pages || x == q)
  {
    SameTreeKeeps(s0, s, pending);
    ParentSplitKeeps(s, p, left, right, q, pending);
  }

  lemma CascadePublished(s0: Snap, s: Snap, t: Snap, path: seq<PageId>, p: PageId, page: Node,
                         left: PageId, right: PageId, q: PageId, pending: set<PageId>)
    requires Splitting(s0, s, path, p, page, left, right, q, pending)
    requires CanPublish(s, path, left, right, pending) && ParentOf(s, p, left) && p in s.nodes
    requires var u := ParentSplit(s, p, left, right, q);
             RootOk(u) && p in u.nodes && PublishDone(u, t, p, q, pending - {right} + {q})
    ensures PublishDone(s0, t, left, right, pending) && Extends(ParentSplit(s, p, left, right, q), t)
  {
    hide Rows, AllFit, InteriorFits, WithSlot, ParentSplit;
    var u := ParentSplit(s, p, left, right, q);
    SameTreeKeeps(s0, s, pending);
    SplitThenPublish(s, path, p, left, right, q, pending);
    assert NodeOk(s, left);
    CascadeDone(s, u, t, p, left, right, q, pending);
    SameTreeDone(s0, s, t, left, right, pending);
  }

  // --- writing a leaf --------------------------------------------------------------------------

  /** The moments after `tr0` show `before`, and from some write on `after`: the change happens at
      one page write. */
  ghost predicate Switches(tr0: seq<Snap>, tr: seq<Snap>, before: map<Key, Entry>, after: map<Key, Entry>) {
    tr0 <= tr && exists lin :: SwitchesAt(|tr0|, tr, before, after, lin)
  }

  ghost predicate SwitchesAt(from: nat, tr: seq<Snap>, before: map<Key, Entry>, after: map<Key, Entry>, lin: nat) {
    && from <= lin <= |tr|
    && (forall i :: from <= i < lin ==> Rows(tr[i]) == before)
    && (forall i :: lin <= i < |tr| ==> Rows(tr[i]) == after)
  }

  /** `cs` adds chains to the published ones; their pages are complete and outside the tree. */
  ghost predicate ChainsReady(s: Snap, cs: map<PageId, seq<PageId>>) {
    && (forall f :: f in s.chains ==> f in cs && cs[f] == s.chains[f])
    && ChainsOk(s.(chains := cs))
  }

  /** `es` is leaf `p` with one entry added, replaced or removed. */
  ghost predicate LeafChange(s: Snap, path: seq<PageId>, p: PageId, es: seq<Entry>, pos: nat) {
    && Inv(s) && p in s.nodes && s.nodes[p].level == 0
    && PathOk(s, path, p) && |path| == Top(s)
    && LeafOk(s.pages[p].(entries := es), s.nodes[p].low)
    && OneChanged(es, pos)
  }

  /** The one leaf write that goes wrong: a root leaf that overflows into three. */
  predicate TripleRoot(path: seq<PageId>, es: seq<Entry>) {
    path == [] && !LeafFits(es) && |Pack(es, [])| == 3
  }

  ghost predicate LeafOutcome(s: Snap, t: Snap, tr0: seq<Snap>, tr: seq<Snap>, p: PageId, es: seq<Entry>,
                              cs: map<PageId, seq<PageId>>, st: Status)
    requires p in s.pages && s.pages[p].Leaf?
  {
    var after := Rows(Rewrite(s, p, es));
    && Recorded(tr, t) && AllFit(t) && Outside(s, t)
    && Switches(tr0, tr, Rows(s), after)
    && (st.Done? ==> Rows(t) == after && t.chains == cs && Complete(t, {}) && NewAreNodes(s, t))
    && (st.Failed? ==> (Rows(t) == Rows(s) && t.chains == s.chains) || (Rows(t) == after && t.chains == cs))
    && (st.Failed? && LeafFits(es) ==> t == s)
  }

  lemma SteadySwitches(tr0: seq<Snap>, tr: seq<Snap>, before: map<Key, Entry>, after: map<Key, Entry>)
    requires Steady(tr0, tr, before)
    ensures Switches(tr0, tr, before, after)
  {
    assert SwitchesAt(|tr0|, tr, before, after, |tr|);
  }

  lemma SwitchThenSteady(tr0: seq<Snap>, tr1: seq<Snap>, u: Snap, tr: seq<Snap>, before: map<Key, Entry>, after: map<Key, Entry>)
    requires Steady(tr0, tr1, before) && Rows(u) == after && Steady(tr1 + [u], tr, after)
    ensures Switches(tr0, tr, before, after)
  {
    hide Rows;
    forall i | |tr1| <= i < |tr|
      ensures Rows(tr[i]) == after
    {
      if i == |tr1| { assert tr[i] == (tr1 + [u])[i]; }
    }
    forall i | |tr0| <= i < |tr1|
      ensures Rows(tr[i]) == before
    {
      assert tr[i] == (tr1 + [u])[i] == tr1[i];
    }
    assert SwitchesAt(|tr0|, tr, before, after, |tr1|);
  }

  /** A write that also publishes new chains. */
  lemma WriteChainStep(s: Snap, t: Snap, id: PageId, n: Node)
    requires ChainsReady(s, t.chains) && Inv(t) && Extends(s, t) && StubsOk(t)
    requires t.pages == s.pages[id := n]
    requires id in s.pages ==> !s.pages[id].Overflow?
    requires forall x :: x in t.nodes ==> x in s.nodes || x == id || (x in s.pages && !s.pages[x].Overflow?)
    ensures Step(s, t)
  {
    var r := s.(chains := t.chains);
    forall f | f in r.chains
      ensures ChainKept(r, t, f)
    {
      assert ChainOk(r, f);
      forall x | x in r.chains[f]
        ensures x != id
      {
        ChainPagesIn(r, f, x);
      }
    }
    ChainsOkKept(r, t);
    forall f | f in s.chains
      ensures ChainKept(s, t, f)
    {
      assert ChainKept(r, t, f);
    }
  }

  lemma ChainsReadyKept(s: Snap, t: Snap, cs: map<PageId, seq<PageId>>)
    requires ChainsReady(s, cs) && t.nodes == s.nodes && t.chains == s.chains && Outside(s, t)
    ensures ChainsReady(t, cs)
  {
    var r, q := s.(chains := cs), t.(chains := cs);
    forall f | f in cs
      ensures ChainKept(r, q, f)
    {
      assert ChainOk(r, f);
      forall x | x in cs[f]
        ensures x in s.pages && x !in s.nodes
      {
        ChainPagesIn(r, f, x);
      }
    }
    ChainsOkKept(r, q);
  }

  lemma LeafFitsOutcome(s: Snap, tr: seq<Snap>, path: seq<PageId>, p: PageId, es: seq<Entry>, pos: nat, cs: map<PageId, seq<PageId>>)
    requires Recorded(tr, s) && AllFit(s) && Complete(s, {}) && LeafChange(s, path, p, es, pos) && ChainsReady(s, cs)
    requires LeafFits(es) && StubsOk(Rewrite(s, p, es).(chains := cs))
    ensures var t := Rewrite(s, p, es).(chains := cs);
            && Step(s, t)
            && LeafOutcome(s, t, tr, tr + [t], p, es, cs, Done)
            && LeafOutcome(s, s, tr, tr, p, es, cs, Failed(Io))
  {
    var r := Rewrite(s, p, es);
    var t := r.(chains := cs);
    RewriteKeeps(s, p, es);
    OutsidePage(r, t);
    RewriteComplete(s, t, p);
    assert AllFit(t);
    WriteChainStep(s, t, p, t.pages[p]);
    TraceGrows(tr, s, t);
    assert SwitchesAt(|tr|, tr + [t], Rows(s), Rows(r), |tr|);
    assert SwitchesAt(|tr|, tr, Rows(s), Rows(r), |tr|);
  }

  lemma RewriteComplete(s: Snap, t: Snap, p: PageId)
    requires Complete(s, {}) && t.nodes == s.nodes && t.root == s.root
    requires p in s.pages && s.pages[p].Leaf? && p in t.pages && t.pages[p].Leaf? && t.pages == s.pages[p := t.pages[p]]
    ensures Complete(t, {})
  {
    forall c | c in t.nodes
      ensures c == t.root || Published(t, c)
    {
      assert Published(s, c) || c == s.root;
      if Published(s, c) { var x :| ParentOf(s, x, c); assert ParentOf(t, x, c); }
    }
  }

  /** What the packing of one changed leaf provides for its split. */
  lemma {:induction false} PackedReady(s: Snap, path: seq<PageId>, p: PageId, es: seq<Entry>, pos: nat, ids: seq<PageId>)
    requires AllFit(s) && Complete(s, {}) && LeafChange(s, path, p, es, pos) && !LeafFits(es)
    ensures var chunks := Pack(es, []);
            && 2 <= |chunks| <= 3
            && (|ids| == |chunks| && ids[0] == p && Distinct(ids) && (forall i :: 1 <= i < |ids| ==> ids[i] !in s.nodes) ==>
                  ReadyToSplit(s, ids, chunks, es))
  {
    var chunks := Pack(es, []);
    TwoOrThree(es, pos);
    BytesDecide(es);
    forall i | 0 <= i < |chunks|
      ensures chunks[i] != [] && LeafFits(chunks[i])
    {
      TightChunks(chunks, i);
    }
  }

  /** The siblings of `p` stand on new pages `ids[1..]`; the tree is as it was. */
  ghost predicate Spread(s0: Snap, s: Snap, p: PageId, chunks: seq<seq<Entry>>, ids: seq<PageId>) {
    && SameTree(s0, s) && Outside(s0, s)
    && |ids| == |chunks| && |ids| > 0 && ids[0] == p && Distinct(ids)
    && (forall i :: 1 <= i < |ids| ==>
          ids[i] !in s0.pages && ids[i] !in s.nodes && ids[i] in s.pages && !s.pages[ids[i]].Overflow?)
    && p in s.pages && IsNode(s.pages[p]) && SiblingsWritten(s, ids, chunks, 1)
    && (forall x :: x in s.pages ==> x in s0.pages || x in ids)
    && (forall x :: x in s0.pages ==> x in s.pages)
  }

  /** The split leaf itself is written: the change becomes visible, all siblings at once. */
  lemma {:induction false} SplitWritten(s0: Snap, s: Snap, tr: seq<Snap>, path: seq<PageId>, p: PageId, es: seq<Entry>, pos: nat,
                     ids: seq<PageId>, cs: map<PageId, seq<PageId>>)
    requires Recorded(tr, s) && AllFit(s0) && Complete(s0, {}) && LeafChange(s0, path, p, es, pos) && ChainsReady(s0, cs)
    requires !LeafFits(es) && Spread(s0, s, p, Pack(es, []), ids) && StubsOk(Rewrite(s0, p, es).(chains := cs))
    ensures var chunks := Pack(es, []);
            && |ids| == |chunks| > 0 && ids[0] == p && p in s.pages && s.pages[p].Leaf?
            && AllNonEmpty(chunks) && ReadyToSplit(s, ids, chunks, es)
            && var u := SplitTarget(s, ids, chunks, es).(chains := cs);
            && u.pages == s.pages[p := ChunkLeaf(ids, chunks, s.pages[p].link, s.pages[p].high, 0)] && u.root == s.root
            && Step(s, u)
            && Rows(u) == Rows(Rewrite(s0, p, es))
            && PublishedUpTo(u, u, path, ids, chunks, 0)
            && u.nodes.Keys == s0.nodes.Keys + After(ids, 1)
  {
    hide Pack, StubsOk, Rows, Recorded, AllFit, Complete, PublishedUpTo, SplitTarget, Outside, ReadyToSplit, SiblingsWritten, ChainsReady, Step;
    var chunks := Pack(es, []);
    SameTreeKeeps(s0, s, {});
    LeafChangeKept(s0, s, path, p, es, pos);
    PackedReady(s, path, p, es, pos, ids);
    ChainsReadyKept(s0, s, cs);
    StubsReadyKept(s0, s, p, es, cs);
    SplitWrittenStep(s, path, es, ids, chunks, cs);
  }

  lemma LeafChangeKept(s0: Snap, s: Snap, path: seq<PageId>, p: PageId, es: seq<Entry>, pos: nat)
    requires LeafChange(s0, path, p, es, pos) && SameTree(s0, s) && Inv(s) && Extends(s0, s)
    ensures LeafChange(s, path, p, es, pos)
    ensures Rows(Rewrite(s, p, es)) == Rows(Rewrite(s0, p, es))
    ensures Inv(Rewrite(s0, p, es)) && Inv(Rewrite(s, p, es))
  {
    PathKept(s0, s, path, p);
    RewriteKeeps(s0, p, es);
    RewriteKeeps(s, p, es);
    OutsidePage(Rewrite(s0, p, es), Rewrite(s, p, es));
  }

  /** The stubs of a leaf about to be written stay good while only pages outside the tree change. */
  lemma StubsReadyKept(s0: Snap, s: Snap, p: PageId, es: seq<Entry>, cs: map<PageId, seq<PageId>>)
    requires p in s0.pages && s0.pages[p].Leaf? && p in s.pages && s.pages[p].Leaf? && p in s0.nodes
    requires ChainsReady(s0, cs) && StubsOk(Rewrite(s0, p, es).(chains := cs))
    requires SameTree(s0, s) && Outside(s0, s) && Rows(Rewrite(s, p, es)) == Rows(Rewrite(s0, p, es))
    requires Inv(Rewrite(s0, p, es)) && Inv(Rewrite(s, p, es))
    ensures StubsOk(Rewrite(s, p, es).(chains := cs))
  {
    hide Inv, StubsOk, Rows, ChainsReady;
    var r0, r := Rewrite(s0, p, es).(chains := cs), Rewrite(s, p, es).(chains := cs);
    OutsidePage(Rewrite(s0, p, es), r0);
    OutsidePage(Rewrite(s, p, es), r);
    LeafWriteChains(s0, p, s0.pages[p].(entries := es), cs);
    ChainsOutside(r0, r);
    TableKept(r0, r);
  }

  /** Writing a node page leaves every chain, published or ready, as it is. */
  lemma LeafWriteChains(s: Snap, p: PageId, n: Node, cs: map<PageId, seq<PageId>>)
    requires ChainsReady(s, cs) && p in s.nodes
    ensures var t := s.(pages := s.pages[p := n], chains := cs);
            ChainsOk(t)
  {
    var r := s.(chains := cs);
    var t := r.(pages := s.pages[p := n]);
    ChainsOutside(r, t);
    ChainsOkKept(r, t);
  }

  lemma SplitWrittenStep(s: Snap, path: seq<PageId>, es: seq<Entry>,
                         ids: seq<PageId>, chunks: seq<seq<Entry>>, cs: map<PageId, seq<PageId>>)
    requires ReadyToSplit(s, ids, chunks, es) && |ids| <= 3 && SiblingsWritten(s, ids, chunks, 1)
    requires PathOk(s, path, ids[0]) && |path| == Top(s) && ChainsReady(s, cs)
    requires StubsOk(Rewrite(s, ids[0], es).(chains := cs))
    requires forall i :: 1 <= i < |ids| ==> ids[i] in s.pages && !s.pages[ids[i]].Overflow?
    ensures var u := SplitTarget(s, ids, chunks, es).(chains := cs);
            && u.pages == s.pages[ids[0] := ChunkLeaf(ids, chunks, s.pages[ids[0]].link, s.pages[ids[0]].high, 0)]
            && u.root == s.root
            && Step(s, u)
            && Rows(u) == Rows(Rewrite(s, ids[0], es))
            && PublishedUpTo(u, u, path, ids, chunks, 0)
            && u.nodes.Keys == s.nodes.Keys + After(ids, 1)
  {
    hide SplitTarget, Rows, PublishedUpTo, AllFit, ChainsReady, SiblingsWritten, StubsOk;
    var v := SplitTarget(s, ids, chunks, es);
    var u := v.(chains := cs);
    SplitTargetSound(s, ids, chunks, es);
    SplitTargetPages(s, ids, chunks, es);
    SplitIsPublishable(s, ids, chunks, es, path);
    OutsidePage(v, u);
    assert SameTreeButChains(v, u);
    PublishedUpToChains(v, u, path, ids, chunks);
    RewriteKeeps(s, ids[0], es);
    SplitStubs(s, u, es, ids, cs);
    forall x | x in u.nodes
      ensures x in s.nodes || (x in s.pages && !s.pages[x].Overflow?)
      ensures x in s.nodes.Keys + After(ids, 1)
    {
      if x in ids[1..] {
        var i :| 0 <= i < |ids[1..]| && ids[1..][i] == x;
        assert ids[i + 1] == x;
      } else {
        assert SamePlace(s.nodes, u.nodes, x);
      }
    }
    forall x | x in s.nodes.Keys + After(ids, 1)
      ensures x in u.nodes
    {
      if x in ids[1..] {
        var i :| 0 <= i < |ids[1..]| && ids[1..][i] == x;
        assert ids[i + 1] == x;
      } else {
        assert SamePlace(s.nodes, u.nodes, x);
      }
    }
    WriteChainStep(s, u, ids[0], u.pages[ids[0]]);
  }

  lemma SplitStubs(s: Snap, u: Snap, es: seq<Entry>, ids: seq<PageId>, cs: map<PageId, seq<PageId>>)
    requires |ids| > 0 && ids[0] in s.nodes && ids[0] in s.pages && s.pages[ids[0]].Leaf? && Inv(Rewrite(s, ids[0], es))
    requires ChainsReady(s, cs) && StubsOk(Rewrite(s, ids[0], es).(chains := cs)) && u.chains == cs
    requires Rows(u) == Rows(Rewrite(s, ids[0], es)) && ids[0] in u.pages
    requires u.pages == s.pages[ids[0] := u.pages[ids[0]]]
    ensures StubsOk(u)
  {
    hide StubsOk, Rows, ChainsReady;
    var w := Rewrite(s, ids[0], es);
    var r := w.(chains := cs);
    OutsidePage(w, r);
    LeafWriteChains(s, ids[0], s.pages[ids[0]].(entries := es), cs);
    ChainsOutside(r, u);
    TableKept(r, u);
  }

  ghost predicate SameTreeButChains(s: Snap, t: Snap) {
    t.nodes == s.nodes && t.root == s.root && t.pages == s.pages
  }

  lemma PublishedUpToChains(v: Snap, u: Snap, path: seq<PageId>, ids: seq<PageId>, chunks: seq<seq<Entry>>)
    requires PublishedUpTo(v, v, path, ids, chunks, 0) && SameTreeButChains(v, u) && Inv(u) && Rows(u) == Rows(v)
    ensures PublishedUpTo(u, u, path, ids, chunks, 0)
  {
    forall c
      ensures Published(u, c) <==> Published(v, c)
    {
      if Published(v, c) { var p :| ParentOf(v, p, c); assert ParentOf(u, p, c); }
      if Published(u, c) { var p :| ParentOf(u, p, c); assert ParentOf(v, p, c); }
    }
    PathKept(v, u, path, ids[0]);
    forall j | 0 <= j < |ids| - 1
      ensures LinkedNext(u, ids, chunks, j)
    {
      assert LinkedNext(v, ids, chunks, j);
    }
    forall c
      ensures c in u.nodes && c !in After(ids, 1) ==> c == u.root || Published(u, c)
      ensures c in After(ids, 1) ==> c in u.nodes && c != u.root && !Published(u, c)
    {
      assert Published(v, c) || !Published(v, c);
    }
  }

  // --- publishing all separators of a split ----------------------------------------------------

  /** Lookups of every row id below `k` come back empty. */
  ghost predicate LostBelow(s: Snap, k: Key) {
    forall j: Key {:trigger LooksUp(s, j, None)} :: j < k ==> LooksUp(s, j, None)
  }

  ghost predicate PublishingTo(u: Snap, t: Snap, tr0: seq<Snap>, tr: seq<Snap>, path: seq<PageId>,
                               ids: seq<PageId>, chunks: seq<seq<Entry>>, i: nat) {
    && PublishedUpTo(u, t, path, ids, chunks, i)
    && Recorded(tr, t) && Steady(tr0, tr, Rows(u)) && Outside(u, t) && NewAreNodes(u, t)
  }

  lemma PublishedShape(u: Snap, t: Snap, path: seq<PageId>, ids: seq<PageId>, chunks: seq<seq<Entry>>, i: nat)
    requires PublishedUpTo(u, t, path, ids, chunks, i)
    ensures 1 < |ids| == |chunks| <= 3 && i < |ids| && AllNonEmpty(chunks)
    ensures forall j :: 0 <= j < |ids| ==> ids[j] in t.nodes && ids[j] in t.pages && IsNode(t.pages[ids[j]])
    ensures i + 1 < |ids| ==> t.pages[ids[i]].high == chunks[i + 1][0].key
    ensures Rows(t) == Rows(u) && AllFit(t)
    ensures i + 1 == |ids| ==> Complete(t, {})
  {
    if i + 1 < |ids| { assert LinkedNext(t, ids, chunks, i); }
    else { assert After(ids, i + 1) == {}; }
  }

  lemma PublishedOne(u: Snap, s: Snap, t: Snap, tr0: seq<Snap>, tr: seq<Snap>, trt: seq<Snap>,
                     path: seq<PageId>, ids: seq<PageId>, chunks: seq<seq<Entry>>, i: nat, st: Status)
    requires PublishingTo(u, s, tr0, tr, path, ids, chunks, i) && i + 1 < |ids|
    requires CanPublish(s, path, ids[i], ids[i + 1], After(ids, i + 1))
    requires PublishOutcome(s, t, tr, trt, ids[i], ids[i + 1], After(ids, i + 1), st)
    ensures Recorded(trt, t) && Steady(tr0, trt, Rows(u)) && AllFit(t) && Outside(u, t) && Rows(t) == Rows(u)
    ensures st.Done? ==> PublishingTo(u, t, tr0, trt, path, ids, chunks, i + 1)
  {
    if st.Done? { NextPublished(u, s, t, path, ids, chunks, i); }
    PublishedShape(u, s, path, ids, chunks, i);
    RecordedLast(tr, trt, s, t, Rows(u));
    assert Steady(tr0, trt, Rows(u));
  }

  /** A steady run shows the same rows at its end. */
  lemma RecordedLast(tr: seq<Snap>, trt: seq<Snap>, s: Snap, t: Snap, rows: map<Key, Entry>)
    requires Recorded(tr, s) && Recorded(trt, t) && Rows(s) == rows && Steady(tr, trt, rows)
    ensures Rows(t) == rows
  {
    hide Rows;
    if |trt| == |tr| { assert trt == tr; }
  }

  lemma LostAll(u: Snap, r1: PageId, t: Snap, path: seq<PageId>, ids: seq<PageId>, chunks: seq<seq<Entry>>)
    requires |ids| == 3 && PublishedUpTo(u, u, path, ids, chunks, 0) && r1 !in u.pages
    requires ids[0] in u.nodes && ids[0] in u.pages && IsNode(u.pages[ids[0]])
    requires ids[1] in u.nodes && ids[1] in u.pages && IsNode(u.pages[ids[1]])
    requires t.root !in u.pages && t.root != r1 && t == TwoRoots(u, r1, t.root, ids)
    ensures LostBelow(t, chunks[1][0].key)
  {
    forall j: Key | j < chunks[1][0].key
      ensures LooksUp(t, j, None)
    {
      FirstLeafLost(u, r1, t.root, path, ids, chunks, j);
    }
  }

  /** The split as a whole, from the moment its siblings' pages were allocated. */
  lemma {:induction false} SplitOutcome(s0: Snap, s: Snap, u: Snap, t: Snap, tr0: seq<Snap>, tr1: seq<Snap>, tr: seq<Snap>,
                     p: PageId, es: seq<Entry>, cs: map<PageId, seq<PageId>>, ids: seq<PageId>, st: Status)
    requires p in s0.pages && s0.pages[p].Leaf? && !LeafFits(es) && u.chains == cs && t.chains == cs
    requires Steady(tr0, tr1, Rows(s0)) && Rows(u) == Rows(Rewrite(s0, p, es)) && Rows(t) == Rows(u)
    requires Recorded(tr, t) && Steady(tr1 + [u], tr, Rows(u)) && AllFit(t)
    requires Spread(s0, s, p, Pack(es, []), ids) && p in s0.nodes
    requires Outside(u, t) && u.nodes.Keys == s0.nodes.Keys + After(ids, 1)
    requires u.pages.Keys == s.pages.Keys && forall x :: x in s.pages && x != p ==> u.pages[x] == s.pages[x]
    requires st.Done? ==> Complete(t, {}) && NewAreNodes(u, t)
    ensures LeafOutcome(s0, t, tr0, tr, p, es, cs, st)
  {
    assert tr[|tr1|] == (tr1 + [u])[|tr1|];
    assert Extends(tr[|tr1|], tr[|tr| - 1]);
    SwitchThenSteady(tr0, tr1, u, tr, Rows(s0), Rows(u));
    forall x | x in s0.pages && x !in s0.nodes
      ensures x in t.pages && t.pages[x] == s0.pages[x] && x !in t.nodes
    {
      assert x !in After(ids, 1);
    }
    if st.Done? {
      forall x | x in t.pages && x !in s0.pages
        ensures x in t.nodes
      {
        if x in u.pages {
          var i :| 0 <= i < |ids| && ids[i] == x;
          assert x == ids[1..][i - 1];
        }
      }
    }
  }

  lemma StalledLeaf(s0: Snap, s: Snap, tr0: seq<Snap>, tr: seq<Snap>, path: seq<PageId>, p: PageId, es: seq<Entry>, pos: nat,
                    cs: map<PageId, seq<PageId>>)
    requires LeafChange(s0, path, p, es, pos) && AllFit(s0) && Complete(s0, {}) && !LeafFits(es)
    requires Recorded(tr, s) && Steady(tr0, tr, Rows(s0)) && SameTree(s0, s) && Outside(s0, s)
    ensures LeafOutcome(s0, s, tr0, tr, p, es, cs, Failed(Io))
  {
    SameTreeKeeps(s0, s, {});
    SteadySwitches(tr0, tr, Rows(s0), Rows(Rewrite(s0, p, es)));
  }

  lemma LeafChangeShape(s: Snap, path: seq<PageId>, p: PageId, es: seq<Entry>, pos: nat)
    requires LeafChange(s, path, p, es, pos)
    ensures p in s.pages && s.pages[p].Leaf? && p in s.nodes
  {
  }

  lemma SteadyThrough(tr0: seq<Snap>, tr1: seq<Snap>, tr2: seq<Snap>, rows: map<Key, Entry>)
    requires Steady(tr0, tr1, rows) && Steady(tr1, tr2, rows)
    ensures Steady(tr0, tr2, rows)
  {
    hide Rows;
    forall i | |tr0| <= i < |tr2|
      ensures Rows(tr2[i]) == rows
    {
      if i < |tr1| { assert tr2[i] == tr1[i]; }
    }
  }

  /** Writing fresh pages leaves everything that was there before. */
  lemma SiblingsOutside(s0: Snap, s1: Snap, s2: Snap, ids: seq<PageId>)
    requires SameTree(s0, s1) && Outside(s0, s1) && |ids| > 0
    requires forall i :: 1 <= i < |ids| ==> ids[i] !in s0.pages && ids[i] !in s1.nodes
    requires s2.nodes == s1.nodes && s2.root == s1.root && s2.chains == s1.chains
    requires s2.pages.Keys == s1.pages.Keys && forall x :: x in s2.pages && x !in ids[1..] ==> s2.pages[x] == s1.pages[x]
    ensures SameTree(s0, s2) && Outside(s0, s2)
  {
    forall x | x in s0.pages
      ensures x !in ids[1..]
    {
    }
  }

  // --- pages that go away ----------------------------------------------------------------------

  ghost predicate NotChained(chains: map<PageId, seq<PageId>>, id: PageId) {
    forall f :: f in chains ==> id !in chains[f]
  }

  lemma RemoveStep(tr: seq<Snap>, s: Snap, id: PageId)
    requires Recorded(tr, s) && id !in s.nodes && NotChained(s.chains, id)
    ensures var t := s.(pages := s.pages - {id});
            Recorded(tr + [t], t) && Rows(t) == Rows(s)
  {
    var t := s.(pages := s.pages - {id});
    RecordedNow(tr, s);
    OutsidePage(s, t);
    forall f | f in s.chains
      ensures ChainKept(s, t, f)
    {
      assert ChainOk(s, f);
    }
    ChainsOkKept(s, t);
    TableKept(s, t);
    TraceGrows(tr, s, t);
  }

  // --- new chains ------------------------------------------------------------------------------

  /** Pages `ids[from..]` hold `pieces[from..]` as the tail of a chain. */
  ghost predicate ChainTail(s: Snap, ids: seq<PageId>, pieces: seq<seq<byte>>, from: nat)
    requires |ids| == |pieces|
  {
    forall i {:trigger ChainPage(s, ids, i)} :: from <= i < |ids| ==>
      ChainPage(s, ids, i) && s.pages[ids[i]].payload == pieces[i]
  }

  lemma {:induction false} TailPayload(s: Snap, ids: seq<PageId>, pieces: seq<seq<byte>>, from: nat)
    requires |ids| == |pieces| && from <= |ids| && ChainTail(s, ids, pieces, from)
    ensures Payload(s.pages, ids[from..]) == Join(pieces[from..])
    decreases |ids| - from
  {
    if from < |ids| {
      assert ChainPage(s, ids, from);
      assert ids[from..][1..] == ids[from + 1..] && pieces[from..][1..] == pieces[from + 1..];
      TailPayload(s, ids, pieces, from + 1);
    }
  }

  lemma {:induction false} NewChainReady(s: Snap, ids: seq<PageId>, pieces: seq<seq<byte>>)
    requires ChainsOk(s) && |ids| == |pieces| > 0 && Distinct(ids) && ChainTail(s, ids, pieces, 0)
    requires forall i :: 0 <= i < |ids| ==> NotChained(s.chains, ids[i])
    ensures ids[0] !in s.chains
    ensures ChainsReady(s, s.chains[ids[0] := ids])
    ensures Payload(s.pages, ids) == Join(pieces)
  {
    var t := s.(chains := s.chains[ids[0] := ids]);
    assert ids[0] in s.chains ==> ChainOk(s, ids[0]);
    forall f | f in t.chains
      ensures ChainOk(t, f)
    {
      if f == ids[0] {
        forall i | 0 <= i < |ids| ensures ChainPage(t, ids, i) { assert ChainPage(s, ids, i); }
      } else {
        assert ChainOk(s, f);
        forall i | 0 <= i < |t.chains[f]| ensures ChainPage(t, t.chains[f], i) { assert ChainPage(s, s.chains[f], i); }
      }
    }
    forall f, g | f in t.chains && g in t.chains
      ensures ChainsApart(t, f, g)
    {
      if f != ids[0] && g != ids[0] { assert ChainsApart(s, f, g); }
    }
    TailPayload(s, ids, pieces, 0);
    assert ids[0..] == ids && pieces[0..] == pieces;
  }

  /** `ids` are the pages that were not there before; everything else is as it was. */
  ghost predicate NewPages(before: map<PageId, Node>, after: map<PageId, Node>, ids: seq<PageId>) {
    && Distinct(ids)
    && (forall i :: 0 <= i < |ids| ==> ids[i] !in before && ids[i] in after)
    && (forall x :: x in before ==> x in after && after[x] == before[x])
    && (forall x :: x in after ==> x in before || x in ids)
  }

  lemma NewPagesDistinct(before: map<PageId, Node>, after: map<PageId, Node>, ids: seq<PageId>)
    requires NewPages(before, after, ids)
    ensures Distinct(ids)
  {
  }

  /** A chain holding `bytes` stands on the new pages `ids`, ready to be published. */
  ghost predicate NewChain(s: Snap, t: Snap, first: PageId, ids: seq<PageId>, bytes: seq<byte>) {
    && NewPages(s.pages, t.pages, ids)
    && |ids| == ChainLen(OVERFLOW_INLINE_PREFIX + |bytes|) && ids[0] == first && first < INF_KEY
    && first !in t.chains && ChainsReady(t, t.chains[first := ids])
    && Payload(t.pages, ids) == bytes
  }

  lemma NewNotChained(tr: seq<Snap>, s: Snap, ids: seq<PageId>)
    requires Recorded(tr, s) && forall i :: 0 <= i < |ids| ==> ids[i] !in s.pages
    ensures forall i :: 0 <= i < |ids| ==> ids[i] !in s.nodes && NotChained(s.chains, ids[i])
  {
    RecordedNow(tr, s);
    forall i, f | 0 <= i < |ids| && f in s.chains
      ensures ids[i] !in s.chains[f]
    {
      assert ChainOk(s, f);
      if ids[i] in s.chains[f] { ChainPagesIn(s, f, ids[i]); }
    }
  }

  /** The published chains once the stub `e`, whose chain has the pages `ids`, is published. */
  ghost function WithChain(chains: map<PageId, seq<PageId>>, e: Entry, ids: seq<PageId>): map<PageId, seq<PageId>> {
    if e.overflow then chains[FirstOf(e) := ids] else chains
  }

  /** Entry `e` holds `tuple` under `key`; a chain it needs stands ready to be published. */
  ghost predicate EntryReady(t: Snap, e: Entry, key: Key, tuple: seq<byte>, cs: map<PageId, seq<PageId>>) {
    && e.key == key && EntrySize(e) <= LEAF_CAPACITY && |e.stored| == |Sketch(key, tuple).stored|
    && ChainsReady(t, cs)
    && StubOk(t.(chains := cs), e) && ValueOf(t.(chains := cs), e) == tuple
    && (e.overflow ==> FirstOf(e) !in t.chains && FirstOf(e) in cs && cs == t.chains[FirstOf(e) := cs[FirstOf(e)]])
    && (!e.overflow ==> cs == t.chains)
  }

  lemma ChainedEntry(s: Snap, t: Snap, key: Key, tuple: seq<byte>, first: PageId, ids: seq<PageId>)
    requires MAX_TUPLE < |tuple| <= MAX_CHAINED
    requires NewChain(s, t, first, ids, tuple[OVERFLOW_INLINE_PREFIX..])
    ensures var stub := Stub(tuple[..OVERFLOW_INLINE_PREFIX], |tuple|, first);
            var e := Entry(key, EncodeStub(stub), true);
            EntryReady(t, e, key, tuple, t.chains[first := ids]) && FirstOf(e) == first
  {
    var stub := Stub(tuple[..OVERFLOW_INLINE_PREFIX], |tuple|, first);
    StubRoundTrip(stub);
    assert tuple == tuple[..OVERFLOW_INLINE_PREFIX] + tuple[OVERFLOW_INLINE_PREFIX..];
  }

  lemma InlineEntry(tr: seq<Snap>, t: Snap, key: Key, tuple: seq<byte>)
    requires Recorded(tr, t) && |tuple| <= MAX_TUPLE
    ensures EntryReady(t, Entry(key, tuple, false), key, tuple, t.chains)
  {
    RecordedNow(tr, t);
    assert t.(chains := t.chains) == t;
  }

  lemma LeafChangeSorted(s: Snap, path: seq<PageId>, p: PageId, es: seq<Entry>, pos: nat)
    requires LeafChange(s, path, p, es, pos)
    ensures OneChanged(es, pos) && Sorted(es)
  {
  }
}
