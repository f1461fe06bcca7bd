/** Writing an overflowing leaf: from the moment its new siblings are on their pages to the moment
    the last separator is published, and the one case where that goes wrong. */
module BLinkLeafWrite {
  import opened Bytes
  import opened Distinctness
  import opened BLinkNode
  import opened BLinkInvariant
  import opened BLinkReader
  import opened BLinkSteps
  import opened BLinkPacking
  import opened BLinkSplit
  import opened BLinkPublish

  // --- what a lookup gets ----------------------------------------------------------------------

  /** A lookup of `key` on the store as it stands at `s` ends with `found`. */
  ghost predicate LooksUp(s: Snap, key: Key, found: Option<Entry>) {
    exists visits, at :: EndsAt(s, key, visits, at) && found == Find(s.pages[at].entries, key)
  }

  ghost predicate EndsAt(s: Snap, key: Key, visits: seq<nat>, at: PageId) {
    && Walk([s], key, s.root, 0, visits, at)
    && at in s.pages && s.pages[at].Leaf? && !Passed(s.pages[at], key)
  }

  lemma {:induction false} WalkDeterministic(s: Snap, key: Key, start: PageId, v: seq<nat>, w: seq<nat>, a: PageId, b: PageId)
    requires Walk([s], key, start, 0, v, a) && Walk([s], key, start, 0, w, b)
    requires a in s.pages && s.pages[a].Leaf? && !Passed(s.pages[a], key)
    requires b in s.pages && s.pages[b].Leaf? && !Passed(s.pages[b], key)
    ensures a == b
    decreases |v|
  {
    if v != [] && w != [] {
      WalkDeterministic(s, key, Next(s.pages[start], key), v[1..], w[1..], a, b);
    }
  }

  /** A lookup has one outcome. */
  lemma LooksUpOnce(s: Snap, key: Key, f: Option<Entry>, g: Option<Entry>)
    requires LooksUp(s, key, f) && LooksUp(s, key, g)
    ensures f == g
  {
    var v, a :| EndsAt(s, key, v, a) && f == Find(s.pages[a].entries, key);
    var w, b :| EndsAt(s, key, w, b) && g == Find(s.pages[b].entries, key);
    WalkDeterministic(s, key, s.root, v, w, a, b);
  }

  /** On a sound tree a lookup finds the tree's row. */
  lemma LooksUpRow(s: Snap, key: Key)
    requires Inv(s)
    ensures LooksUp(s, key, RowAt(s, key))
  {
    var v, at := LookupWalk(s, key, s.root);
    var tr := [s];
    assert Extends(s, s);
    assert Trace(tr);
    WalkOnCourse(tr, key, tr[0].root, 0, v, at);
    assert NodeOk(s, at);
    FindInLeaf(s, at, key);
    assert EndsAt(s, key, v, at);
  }

  lemma {:induction false} LookupWalk(s: Snap, key: Key, start: PageId) returns (v: seq<nat>, at: PageId)
    requires Inv(s) && OnCourse(s, start, key)
    ensures Walk([s], key, start, 0, v, at)
    ensures at in s.nodes && s.nodes[at].level == 0 && !Passed(s.pages[at], key)
    decreases s.nodes[start].level, NodesAbove(s, s.nodes[start].low)
  {
    var n := s.pages[start];
    if n.Leaf? && !Passed(n, key) { return [], start; }
    StepOnCourse(s, start, key);
    if Passed(n, key) { LinkAscends(s, start); }
    v, at := LookupWalk(s, key, Next(n, key));
    v := [0] + v;
  }

  // --- the leaf and its siblings ---------------------------------------------------------------

  /** The siblings after the `from`-th stand on pages of their own, outside the tree. */
  ghost predicate SiblingsWritten(s: Snap, ids: seq<PageId>, chunks: seq<seq<Entry>>, from: nat)
    requires |ids| == |chunks| > 0 && ids[0] in s.pages && IsNode(s.pages[ids[0]])
  {
    forall i :: from <= i < |ids| && 0 < i ==>
      ids[i] in s.pages && s.pages[ids[i]] == ChunkLeaf(ids, chunks, s.pages[ids[0]].link, s.pages[ids[0]].high, i)
  }

  ghost predicate ReadyToSplit(s: Snap, ids: seq<PageId>, chunks: seq<seq<Entry>>, es: seq<Entry>) {
    && |ids| == |chunks| > 1 && Distinct(ids) && AllNonEmpty(chunks) && Flatten(chunks) == es
    && (forall i :: 0 <= i < |chunks| ==> LeafFits(chunks[i]))
    && Inv(s) && AllFit(s) && Complete(s, {})
    && ids[0] in s.nodes && s.nodes[ids[0]].level == 0
    && LeafOk(s.pages[ids[0]].(entries := es), s.nodes[ids[0]].low)
    && (forall i :: 1 <= i < |ids| ==> ids[i] !in s.nodes)
  }

  ghost function SplitTarget(s: Snap, ids: seq<PageId>, chunks: seq<seq<Entry>>, es: seq<Entry>): Snap
    requires |ids| == |chunks| > 0 && AllNonEmpty(chunks) && ids[0] in s.pages && s.pages[ids[0]].Leaf?
  {
    SplitAll(Rewrite(s, ids[0], es), ids, chunks)
  }

  ghost function After(ids: seq<PageId>, i: nat): set<PageId>
    requires i <= |ids|
  {
    set x | x in ids[i..]
  }

  lemma SplitTargetInv(s: Snap, ids: seq<PageId>, chunks: seq<seq<Entry>>, es: seq<Entry>)
    requires ReadyToSplit(s, ids, chunks, es)
    ensures var u := SplitTarget(s, ids, chunks, es);
            && Inv(u) && Extends(s, u) && Rows(u) == Rows(Rewrite(s, ids[0], es))
            && u.root == s.root && u.chains == s.chains
  {
    hide Rows, LeafFits, AllFit, Complete, SplitAll;
    var r := Rewrite(s, ids[0], es);
    RewriteKeeps(s, ids[0], es);
    SplitAllKeeps(r, ids, chunks);
  }

  lemma SplitTargetShape(s: Snap, ids: seq<PageId>, chunks: seq<seq<Entry>>, es: seq<Entry>)
    requires ReadyToSplit(s, ids, chunks, es)
    ensures var u := SplitTarget(s, ids, chunks, es);
            && SplitPages(s.pages, u.pages, ids, chunks, s.pages[ids[0]].link, s.pages[ids[0]].high)
            && SplitPlaces(s.nodes, u.nodes, ids, chunks)
  {
    hide Rows, LeafFits, AllFit, Complete, SplitAll;
    var r := Rewrite(s, ids[0], es);
    RewriteKeeps(s, ids[0], es);
    SplitAllPages(r, ids, chunks);
    SplitAllPlaces(r, ids, chunks);
    var u := SplitTarget(s, ids, chunks, es);
    assert forall x :: x !in ids ==> SamePage(r.pages, u.pages, x);
  }

  /** Rewriting the split leaf makes all of its new siblings reachable at once. */
  lemma SplitTargetSound(s: Snap, ids: seq<PageId>, chunks: seq<seq<Entry>>, es: seq<Entry>)
    requires ReadyToSplit(s, ids, chunks, es)
    ensures var u := SplitTarget(s, ids, chunks, es);
            && Inv(u) && Extends(s, u) && Rows(u) == Rows(Rewrite(s, ids[0], es))
            && u.root == s.root && u.chains == s.chains
            && SplitPages(s.pages, u.pages, ids, chunks, s.pages[ids[0]].link, s.pages[ids[0]].high)
            && SplitPlaces(s.nodes, u.nodes, ids, chunks)
  {
    hide SplitTarget, Rows, Inv, Extends, SplitPages, SplitPlaces;
    SplitTargetInv(s, ids, chunks, es);
    SplitTargetShape(s, ids, chunks, es);
  }

  lemma SplitTargetPages(s: Snap, ids: seq<PageId>, chunks: seq<seq<Entry>>, es: seq<Entry>)
    requires ReadyToSplit(s, ids, chunks, es) && SiblingsWritten(s, ids, chunks, 1)
    ensures var n := s.pages[ids[0]];
            SplitTarget(s, ids, chunks, es).pages == s.pages[ids[0] := ChunkLeaf(ids, chunks, n.link, n.high, 0)]
  {
    var u := SplitTarget(s, ids, chunks, es);
    SplitTargetSound(s, ids, chunks, es);
    var n := s.pages[ids[0]];
    var p := s.pages[ids[0] := ChunkLeaf(ids, chunks, n.link, n.high, 0)];
    forall x
      ensures SamePage(p, u.pages, x)
    {
      if x in ids {
        var i :| 0 <= i < |ids| && ids[i] == x;
      } else {
        assert SamePage(s.pages, u.pages, x);
      }
    }
    MapsEqual(p, u.pages);
  }

  lemma MapsEqual(p: map<PageId, Node>, q: map<PageId, Node>)
    requires forall x {:trigger SamePage(p, q, x)} :: SamePage(p, q, x)
    ensures p == q
  {
    forall x
      ensures (x in p <==> x in q) && (x in p ==> p[x] == q[x])
    {
      assert SamePage(p, q, x);
    }
  }

  /** After the split the new siblings, and only they, wait for a parent. */
  lemma SplitTargetComplete(s: Snap, ids: seq<PageId>, chunks: seq<seq<Entry>>, es: seq<Entry>)
    requires ReadyToSplit(s, ids, chunks, es)
    ensures var u := SplitTarget(s, ids, chunks, es);
            Complete(u, After(ids, 1)) && AllFit(u)
  {
    hide SplitTarget, ReadyToSplit, AllFit, Complete;
    SplitTargetFits(s, ids, chunks, es);
    SplitTargetWaits(s, ids, chunks, es);
  }

  lemma SplitTargetWaitsAt(s: Snap, ids: seq<PageId>, chunks: seq<seq<Entry>>, es: seq<Entry>, c: PageId)
    requires ReadyToSplit(s, ids, chunks, es)
    ensures var u := SplitTarget(s, ids, chunks, es);
            && (c in u.nodes && c !in After(ids, 1) ==> c == u.root || Published(u, c))
            && (c in After(ids, 1) ==> c in u.nodes && c != u.root && !Published(u, c))
  {
    hide SplitTarget, Rows, AllFit, LeafFits, Extends, SplitPages, Published;
    var u := SplitTarget(s, ids, chunks, es);
    SplitTargetSound(s, ids, chunks, es);
    SplitTargetParents(s, ids, chunks, es, c);
    if c in ids[1..] {
      var i :| 0 <= i < |ids[1..]| && ids[1..][i] == c;
      assert ids[i + 1] == c;
      OutsideIsNot(s, c);
    } else {
      assert forall i :: 1 <= i < |ids| ==> ids[i] == ids[1..][i - 1];
      assert SamePlace(s.nodes, u.nodes, c);
    }
  }

  lemma OutsideIsNot(s: Snap, c: PageId)
    requires Inv(s) && c !in s.nodes
    ensures !Published(s, c) && c != s.root
  {
    NotPublishedOutside(s, c);
  }

  lemma SplitTargetWaits(s: Snap, ids: seq<PageId>, chunks: seq<seq<Entry>>, es: seq<Entry>)
    requires ReadyToSplit(s, ids, chunks, es)
    ensures Complete(SplitTarget(s, ids, chunks, es), After(ids, 1))
  {
    hide SplitTarget, Published, After;
    var u := SplitTarget(s, ids, chunks, es);
    forall c
      ensures c in u.nodes && c !in After(ids, 1) ==> c == u.root || Published(u, c)
      ensures c in After(ids, 1) ==> c in u.nodes && c != u.root && !Published(u, c)
    {
      SplitTargetWaitsAt(s, ids, chunks, es, c);
    }
  }

  lemma SplitTargetFits(s: Snap, ids: seq<PageId>, chunks: seq<seq<Entry>>, es: seq<Entry>)
    requires ReadyToSplit(s, ids, chunks, es)
    ensures AllFit(SplitTarget(s, ids, chunks, es))
  {
    hide SplitTarget;
    var u := SplitTarget(s, ids, chunks, es);
    SplitTargetSound(s, ids, chunks, es);
    assert forall i :: 1 <= i < |ids| ==> ids[i] in ids[1..];
    forall p | p in u.nodes && p in u.pages
      ensures NodeFits(u.pages[p])
    {
      if p in ids {
        var i :| 0 <= i < |ids| && ids[i] == p;
      } else {
        assert SamePage(s.pages, u.pages, p);
        assert p !in ids[1..];
        assert SamePlace(s.nodes, u.nodes, p);
      }
    }
  }

  lemma SplitTargetParents(s: Snap, ids: seq<PageId>, chunks: seq<seq<Entry>>, es: seq<Entry>, c: PageId)
    requires ReadyToSplit(s, ids, chunks, es)
    ensures Published(SplitTarget(s, ids, chunks, es), c) <==> Published(s, c)
  {
    hide SplitTarget;
    var u := SplitTarget(s, ids, chunks, es);
    SplitTargetSound(s, ids, chunks, es);
    forall p
      ensures ParentOf(u, p, c) <==> ParentOf(s, p, c)
    {
      if p in ids {
        var i :| 0 <= i < |ids| && ids[i] == p;
        assert i > 0 ==> p !in s.nodes;
      } else {
        assert SamePage(s.pages, u.pages, p);
        assert p !in ids[1..];
        assert SamePlace(s.nodes, u.nodes, p);
      }
    }
    if Published(s, c) { var p :| ParentOf(s, p, c); assert ParentOf(u, p, c); }
    if Published(u, c) { var p :| ParentOf(u, p, c); assert ParentOf(s, p, c); }
  }

  // --- publishing the siblings, left to right --------------------------------------------------

  /** The `j`-th leaf of a split links to the next and ends where it starts. */
  ghost predicate LinkedNext(t: Snap, ids: seq<PageId>, chunks: seq<seq<Entry>>, j: nat)
    requires |ids| == |chunks| && AllNonEmpty(chunks) && j + 1 < |ids|
  {
    && ids[j] in t.pages && t.pages[ids[j]].Leaf?
    && t.pages[ids[j]].link == Some(ids[j + 1]) && t.pages[ids[j]].high == chunks[j + 1][0].key
  }

  /** The separators of the first `i` siblings are published; `u` was the moment of the split. */
  ghost predicate PublishedUpTo(u: Snap, t: Snap, path: seq<PageId>, ids: seq<PageId>, chunks: seq<seq<Entry>>, i: nat) {
    && 1 < |ids| == |chunks| <= 3 && i < |ids| && Distinct(ids) && AllNonEmpty(chunks)
    && Inv(u) && Inv(t) && AllFit(t) && Rows(t) == Rows(u) && Extends(u, t)
    && Complete(t, After(ids, i + 1))
    && (forall j :: 0 <= j < |ids| ==> ids[j] in u.nodes && ids[j] in t.pages && u.nodes[ids[j]].level == 0)
    && (forall j {:trigger LinkedNext(t, ids, chunks, j)} :: 0 <= j < |ids| - 1 ==> LinkedNext(t, ids, chunks, j))
    && (forall j :: 1 <= j < |ids| ==> u.nodes[ids[j]].low == chunks[j][0].key && u.nodes[ids[0]].low <= u.nodes[ids[j]].low)
    && PathOk(u, path, ids[0]) && |path| == Top(u)
    && (i == 0 ==> Top(t) == Top(u))
    && (i == 1 ==> Top(t) == Top(u) || (Top(t) == Top(u) + 1 && RoomFor(t, ids[1])))
  }

  lemma SplitIsPublishable(s: Snap, ids: seq<PageId>, chunks: seq<seq<Entry>>, es: seq<Entry>, path: seq<PageId>)
    requires ReadyToSplit(s, ids, chunks, es) && |ids| <= 3
    requires PathOk(s, path, ids[0]) && |path| == Top(s)
    ensures var u := SplitTarget(s, ids, chunks, es);
            PublishedUpTo(u, u, path, ids, chunks, 0)
  {
    var u := SplitTarget(s, ids, chunks, es);
    SplitTargetSound(s, ids, chunks, es);
    SplitTargetComplete(s, ids, chunks, es);
    PathKept(s, u, path, ids[0]);
    assert NodeOk(u, ids[0]);
    assert ids[0] !in ids[1..];
    assert SamePlace(s.nodes, u.nodes, ids[0]);
    forall j | 0 <= j < |ids| - 1
      ensures LinkedNext(u, ids, chunks, j)
    {
    }
    assert NodeOk(u, ids[1]);
    assert LinkedNext(u, ids, chunks, 0);
    if |ids| == 3 { assert LinkedNext(u, ids, chunks, 1); }
  }

  lemma CanPublishNext(u: Snap, t: Snap, path: seq<PageId>, ids: seq<PageId>, chunks: seq<seq<Entry>>, i: nat)
    requires PublishedUpTo(u, t, path, ids, chunks, i) && i + 1 < |ids|
    requires path != [] || i == 0
    ensures CanPublish(t, path, ids[i], ids[i + 1], After(ids, i + 1))
    ensures t.pages[ids[i]].Leaf? && t.pages[ids[i]].high == chunks[i + 1][0].key
  {
    var pending := After(ids, i + 1);
    assert LinkedNext(t, ids, chunks, i);
    assert ids[i + 1..][0] == ids[i + 1];
    PathShifts(u, path, ids[0], ids[i]);
    PathKept(u, t, path, ids[i]);
    forall c | c in pending
      ensures t.nodes[c].level == 0
    {
      var j :| 0 <= j < |ids[i + 1..]| && ids[i + 1..][j] == c;
      assert ids[i + 1 + j] == c;
    }
    assert ids[i] !in pending;
  }

  lemma NextPublished(u: Snap, t: Snap, v: Snap, path: seq<PageId>, ids: seq<PageId>, chunks: seq<seq<Entry>>, i: nat)
    requires PublishedUpTo(u, t, path, ids, chunks, i) && i + 1 < |ids|
    requires PublishDone(t, v, ids[i], ids[i + 1], After(ids, i + 1))
    ensures PublishedUpTo(u, v, path, ids, chunks, i + 1)
  {
    hide Rows, AllFit, Complete, NodesOk, PathOk;
    assert After(ids, i + 1) - {ids[i + 1]} == After(ids, i + 2) by {
      assert ids[i + 1..] == [ids[i + 1]] + ids[i + 2..];
      assert ids[i + 1] !in ids[i + 2..];
    }
    forall j | 0 <= j < |ids|
      ensures ids[j] in v.pages && v.pages[ids[j]] == t.pages[ids[j]]
    {
      assert ids[j] in u.nodes && t.nodes[ids[j]].level == 0;
    }
    forall j | 0 <= j < |ids| - 1
      ensures LinkedNext(v, ids, chunks, j)
    {
      assert LinkedNext(t, ids, chunks, j);
    }
  }

  // --- a root leaf split in three --------------------------------------------------------------

  /** The two roots grown over a root leaf that was split in three: the first over `a` and `b`,
      the second, with the same empty path, over `b` and `c` alone. */
  ghost function TwoRoots(u: Snap, r1: PageId, r2: PageId, ids: seq<PageId>): Snap
    requires |ids| == 3 && ids[0] in u.nodes && ids[0] in u.pages && IsNode(u.pages[ids[0]])
    requires ids[1] in u.nodes && ids[1] in u.pages && IsNode(u.pages[ids[1]]) && r1 != ids[1]
  {
    GrowRoot(GrowRoot(u, r1, ids[0], ids[1]), r2, ids[1], ids[2])
  }

  /** Every row of the first of the three leaves is lost to a lookup from the new root. */
  lemma FirstLeafLost(u: Snap, r1: PageId, r2: PageId, path: seq<PageId>, ids: seq<PageId>, chunks: seq<seq<Entry>>, k: Key)
    requires |ids| == 3 && PublishedUpTo(u, u, path, ids, chunks, 0)
    requires r1 !in u.pages && r2 !in u.pages && r2 != r1
    requires k < chunks[1][0].key
    ensures LooksUp(TwoRoots(u, r1, r2, ids), k, None)
  {
    var t := TwoRoots(u, r1, r2, ids);
    assert LinkedNext(u, ids, chunks, 0) && LinkedNext(u, ids, chunks, 1);
    var b := ids[1];
    assert NodeOk(u, b);
    assert u.pages[b].Leaf? && u.pages[b].high == chunks[2][0].key && u.nodes[b].low == chunks[1][0].key;
    var n := t.pages[t.root];
    assert n == FreshRoot(b, chunks[2][0].key, ids[2]);
    assert k < u.pages[b].high;
    assert RouteIndex(n.slots, k) == 0;
    assert Next(n, k) == b;
    assert Walk([t], k, b, 0, [], b);
    assert [0][1..] == [];
    assert Walk([t], k, t.root, 0, [0], b);
    assert EndsAt(t, k, [0], b);
    FindSound(t.pages[b].entries, k);
    assert Find(t.pages[b].entries, k) == None;
  }
}
