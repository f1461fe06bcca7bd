/** Latch-free readers of the clustered tree.

    A reader takes no latch: it reads one page at a time, keeps a private copy of it, and any
    number of page writes may happen between two of its reads. */
module BLinkReader {
  import opened Bytes
  import opened BLinkNode
  import opened BLinkInvariant

  /** `t` is `s` some page writes later: every node of `s` is still a node, in the same place. */
  ghost predicate Extends(s: Snap, t: Snap) {
    forall p :: p in s.nodes ==> p in t.nodes && t.nodes[p] == s.nodes[p]
  }

  /** The moments of a run, one after each page write. */
  ghost predicate Trace(tr: seq<Snap>) {
    && (forall i :: 0 <= i < |tr| ==> Inv(tr[i]))
    && (forall i, j :: 0 <= i <= j < |tr| ==> Extends(tr[i], tr[j]))
  }

  /** Where a reader looking for `key` goes from its copy `n`: right along the link, or down. */
  ghost function Next(n: Node, key: Key): PageId
    requires IsNode(n) && (Passed(n, key) || n.Interior?)
  {
    if Passed(n, key) then n.link.value else Child(n, RouteIndex(n.slots, key))
  }

  /** A reader that starts at page `start` no earlier than moment `from` has read pages at the
      moments `visits`, moving on each time, and will read page `at` next. */
  ghost predicate Walk(tr: seq<Snap>, key: Key, start: PageId, from: nat, visits: seq<nat>, at: PageId)
    decreases |visits|
  {
    if visits == [] then at == start
    else
      && from <= visits[0] < |tr|
      && start in tr[visits[0]].pages
      && var n := tr[visits[0]].pages[start];
      && IsNode(n) && (Passed(n, key) || n.Interior?)
      && Walk(tr, key, Next(n, key), visits[0], visits[1..], at)
  }

  /** The moment of the last read, or `from` before the first one. */
  ghost function LastRead(from: nat, visits: seq<nat>): nat {
    if visits == [] then from else visits[|visits| - 1]
  }

  /** Page `at` is a node that starts at or below `key`: the reader has not gone past its key. */
  ghost predicate OnCourse(s: Snap, at: PageId, key: Key) {
    at in s.nodes && s.nodes[at].low <= key
  }

  lemma StepOnCourse(s: Snap, at: PageId, key: Key)
    requires NodesOk(s) && OnCourse(s, at, key)
    requires Passed(s.pages[at], key) || s.pages[at].Interior?
    ensures OnCourse(s, Next(s.pages[at], key), key)
    ensures !Passed(s.pages[at], key) ==>
              && s.nodes[Next(s.pages[at], key)].level + 1 == s.nodes[at].level
              && s.nodes[at].low <= s.nodes[Next(s.pages[at], key)].low
  {
    assert NodeOk(s, at);
    var n := s.pages[at];
    if !Passed(n, key) {
      assert ChildOk(s, n, s.nodes[at], RouteIndex(n.slots, key));
    }
  }

  lemma {:induction false} WalkOnCourse(tr: seq<Snap>, key: Key, start: PageId, from: nat, visits: seq<nat>, at: PageId)
    requires Trace(tr) && from < |tr| && OnCourse(tr[from], start, key)
    requires Walk(tr, key, start, from, visits, at)
    ensures from <= LastRead(from, visits) < |tr|
    ensures OnCourse(tr[LastRead(from, visits)], at, key)
    decreases |visits|
  {
    if visits != [] {
      var t := visits[0];
      assert Extends(tr[from], tr[t]);
      StepOnCourse(tr[t], start, key);
      WalkOnCourse(tr, key, Next(tr[t].pages[start], key), t, visits[1..], at);
    }
  }

  /** A reader is never lost: from whatever moment's root it started, and however many page writes
      came between its visits, the page it is about to read is there and is a tree node. */
  lemma {:induction false} ReaderNeverLost(tr: seq<Snap>, key: Key, from: nat, visits: seq<nat>, at: PageId, now: nat)
    requires Trace(tr) && from < |tr|
    requires Walk(tr, key, tr[from].root, from, visits, at)
    requires LastRead(from, visits) <= now < |tr|
    ensures at in tr[now].pages && IsNode(tr[now].pages[at])
    ensures OnCourse(tr[now], at, key)
  {
    WalkOnCourse(tr, key, tr[from].root, from, visits, at);
    assert Extends(tr[LastRead(from, visits)], tr[now]);
    assert NodeOk(tr[now], at);
  }

  /** A latch-free lookup is atomic: what it finds in the leaf copy it ends on is exactly the row
      the tree held at the moment that leaf was read. */
  lemma {:induction false} ReaderFindsCurrentRow(tr: seq<Snap>, key: Key, from: nat, visits: seq<nat>, at: PageId, now: nat)
    requires Trace(tr) && from < |tr|
    requires Walk(tr, key, tr[from].root, from, visits, at)
    requires LastRead(from, visits) <= now < |tr|
    requires at in tr[now].pages && tr[now].pages[at].Leaf? && !Passed(tr[now].pages[at], key)
    ensures Find(tr[now].pages[at].entries, key) == RowAt(tr[now], key)
  {
    ReaderNeverLost(tr, key, from, visits, at, now);
    assert NodeOk(tr[now], at);
    FindInLeaf(tr[now], at, key);
  }

  // --- scans -------------------------------------------------------------------------------

  /** A scan's descent to the leftmost leaf, taking the first child at each level. */
  ghost predicate LeftWalk(tr: seq<Snap>, start: PageId, from: nat, visits: seq<nat>, at: PageId)
    decreases |visits|
  {
    if visits == [] then at == start
    else
      && from <= visits[0] < |tr|
      && start in tr[visits[0]].pages
      && tr[visits[0]].pages[start].Interior?
      && LeftWalk(tr, Child(tr[visits[0]].pages[start], 0), visits[0], visits[1..], at)
  }

  lemma {:induction false} LeftWalkLow(tr: seq<Snap>, start: PageId, from: nat, visits: seq<nat>, at: PageId)
    requires Trace(tr) && from < |tr| && start in tr[from].nodes && tr[from].nodes[start].low == 0
    requires LeftWalk(tr, start, from, visits, at)
    ensures from <= LastRead(from, visits) < |tr|
    ensures at in tr[LastRead(from, visits)].nodes && tr[LastRead(from, visits)].nodes[at].low == 0
    decreases |visits|
  {
    if visits != [] {
      var t := visits[0];
      assert Extends(tr[from], tr[t]);
      var n := tr[t].pages[start];
      assert NodeOk(tr[t], start) && ChildOk(tr[t], n, tr[t].nodes[start], 0);
      LeftWalkLow(tr, Child(n, 0), t, visits[1..], at);
    }
  }

  /** The leaf copies `copies`, read at the moments `times`, that following right links from page
      `at` gives until a leaf without a right sibling. */
  ghost predicate LeafChain(tr: seq<Snap>, at: PageId, from: nat, times: seq<nat>, copies: seq<Node>)
    decreases |times|
  {
    && |times| == |copies| > 0
    && from <= times[0] < |tr|
    && at in tr[times[0]].pages
    && copies[0] == tr[times[0]].pages[at]
    && copies[0].Leaf?
    && if copies[0].link.None? then |times| == 1
       else LeafChain(tr, copies[0].link.value, times[0], times[1..], copies[1..])
  }

  /** The entries a scan hands out: those of each leaf copy in turn. */
  ghost function Delivered(copies: seq<Node>): seq<Entry> {
    if copies == [] || !copies[0].Leaf? then [] else copies[0].entries + Delivered(copies[1..])
  }

  /** What the scan handed out under `key` is what the tree held under it at the moment of one of
      the scan's reads. */
  ghost predicate CurrentAtSomeRead(tr: seq<Snap>, times: seq<nat>, copies: seq<Node>, key: Key) {
    exists i :: 0 <= i < |times| && times[i] < |tr| && Find(Delivered(copies), key) == RowAt(tr[times[i]], key)
  }

  lemma {:induction false} FindConcat(a: seq<Entry>, b: seq<Entry>, key: Key)
    ensures Find(a + b, key) == if Find(a, key).Some? then Find(a, key) else Find(b, key)
  {
    if a == [] {
      assert a + b == b;
    } else {
      assert (a + b)[1..] == a[1..] + b;
      FindConcat(a[1..], b, key);
    }
  }

  ghost predicate FromLow(es: seq<Entry>, low: Key) {
    forall e :: e in es ==> low <= e.key
  }

  lemma {:induction false} ChainAscends(tr: seq<Snap>, at: PageId, from: nat, times: seq<nat>, copies: seq<Node>)
    requires Trace(tr) && from < |tr|
    requires at in tr[from].nodes
    requires LeafChain(tr, at, from, times, copies)
    ensures Sorted(Delivered(copies)) && FromLow(Delivered(copies), tr[from].nodes[at].low)
    decreases |times|
  {
    var t := times[0];
    assert Extends(tr[from], tr[t]);
    assert NodeOk(tr[t], at);
    var n := copies[0];
    if n.link.Some? {
      ChainAscends(tr, n.link.value, t, times[1..], copies[1..]);
    } else {
      assert copies[1..] == [];
    }
  }

  /** What a scan standing before leaf `at` learns from reading it at moment `t`. */
  lemma {:induction false} LeafCopy(tr: seq<Snap>, at: PageId, from: nat, t: nat, key: Key)
    requires Trace(tr) && from <= t < |tr| && OnCourse(tr[from], at, key)
    requires at in tr[t].pages && tr[t].pages[at].Leaf?
    ensures var n := tr[t].pages[at];
            && (n.link.Some? ==> n.link.value in tr[t].nodes && tr[t].nodes[n.link.value].low == n.high)
            && Find(n.entries, key) == if Passed(n, key) then None else RowAt(tr[t], key)
  {
    assert Extends(tr[from], tr[t]);
    assert NodeOk(tr[t], at);
    var n := tr[t].pages[at];
    FindSound(n.entries, key);
    if !Passed(n, key) { FindInLeaf(tr[t], at, key); }
  }

  lemma {:induction false} ChainDelivers(tr: seq<Snap>, at: PageId, from: nat, times: seq<nat>, copies: seq<Node>, key: Key)
    requires Trace(tr) && from < |tr|
    requires OnCourse(tr[from], at, key)
    requires LeafChain(tr, at, from, times, copies)
    ensures CurrentAtSomeRead(tr, times, copies, key)
    decreases |times|
  {
    hide Trace, RowAt, Sorted;
    var t := times[0];
    var n := copies[0];
    LeafCopy(tr, at, from, t, key);
    FindConcat(n.entries, Delivered(copies[1..]), key);
    if !Passed(n, key) {
      if n.link.Some? {
        ChainAscends(tr, n.link.value, t, times[1..], copies[1..]);
        FindSound(Delivered(copies[1..]), key);
      }
      assert Find(Delivered(copies), key) == RowAt(tr[times[0]], key);
    } else {
      ChainDelivers(tr, n.link.value, t, times[1..], copies[1..], key);
      var i :| 0 <= i < |times[1..]| && times[1..][i] < |tr|
            && Find(Delivered(copies[1..]), key) == RowAt(tr[times[1..][i]], key);
      assert Find(Delivered(copies), key) == RowAt(tr[times[i + 1]], key);
    }
  }

  /** A latch-free scan, with page writes between any two of its reads, delivers strictly
      ascending row ids; and under every row id it delivers exactly what the tree held under it at
      the moment of one of its reads (nothing, if there was no such row then). */
  lemma {:induction false} ScanIsAscendingAndCurrent(tr: seq<Snap>, from: nat, down: seq<nat>, first: PageId,
                                  times: seq<nat>, copies: seq<Node>, key: Key)
    requires Trace(tr) && from < |tr|
    requires LeftWalk(tr, tr[from].root, from, down, first)
    requires LeafChain(tr, first, LastRead(from, down), times, copies)
    ensures Sorted(Delivered(copies))
    ensures CurrentAtSomeRead(tr, times, copies, key)
  {
    LeftWalkLow(tr, tr[from].root, from, down, first);
    ChainAscends(tr, first, LastRead(from, down), times, copies);
    ChainDelivers(tr, first, LastRead(from, down), times, copies, key);
  }
}
