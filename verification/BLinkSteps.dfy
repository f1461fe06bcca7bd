/** The effect of each structural page write on the clustered tree, and why the B-link invariant
    survives it: rewriting a leaf, splitting a leaf or an interior node, publishing a separator,
    growing a root. */
module BLinkSteps {
  import opened Bytes
  import opened BLinkNode
  import opened BLinkInvariant
  import opened BLinkReader

  // --- pages outside the tree ----------------------------------------------------------------

  /** Node pages alone decide the invariant and the rows. */
  lemma InteriorKept(s: Snap, t: Snap, n: Node, place: Place)
    requires Extends(s, t) && n.Interior? && InteriorOk(s, n, place)
    ensures InteriorOk(t, n, place)
  {
    forall i | 0 <= i <= |n.slots|
      ensures ChildOk(t, n, place, i)
    {
      assert ChildOk(s, n, place, i);
    }
  }

  lemma NodeKept(s: Snap, t: Snap, p: PageId)
    requires Typed(s) && Typed(t) && Extends(s, t)
    requires p in s.nodes && NodeOk(s, p) && t.pages[p] == s.pages[p]
    ensures NodeOk(t, p)
  {
    if s.nodes[p].level > 0 { InteriorKept(s, t, s.pages[p], s.nodes[p]); }
  }

  lemma OutsidePage(s: Snap, t: Snap)
    requires Inv(s) && t.nodes == s.nodes && t.root == s.root
    requires forall p :: p in s.nodes ==> p in t.pages && t.pages[p] == s.pages[p]
    ensures Inv(t) && Rows(t) == Rows(s)
  {
    forall p | p in t.nodes
      ensures NodeOk(t, p)
    {
      assert NodeOk(s, p);
      NodeKept(s, t, p);
    }
    forall p, q | p in t.nodes && q in t.nodes
      ensures Apart(t, p, q)
    {
      assert Apart(s, p, q);
    }
    forall e
      ensures HasEntry(s, e) <==> HasEntry(t, e)
    {
      if HasEntry(s, e) { var p :| EntryIn(s, p, e); assert EntryIn(t, p, e); }
      if HasEntry(t, e) { var p :| EntryIn(t, p, e); assert EntryIn(s, p, e); }
    }
    SameRows(s, t);
  }

  // --- rewriting a leaf ----------------------------------------------------------------------

  ghost function Rewrite(s: Snap, p: PageId, es: seq<Entry>): Snap
    requires p in s.pages && s.pages[p].Leaf?
  {
    s.(pages := s.pages[p := s.pages[p].(entries := es)])
  }

  lemma RewriteKeeps(s: Snap, p: PageId, es: seq<Entry>)
    requires Inv(s) && p in s.nodes && s.nodes[p].level == 0
    requires LeafOk(s.pages[p].(entries := es), s.nodes[p].low)
    ensures Inv(Rewrite(s, p, es)) && Extends(s, Rewrite(s, p, es))
  {
    var t := Rewrite(s, p, es);
    assert Typed(t);
    forall x | x in t.nodes
      ensures NodeOk(t, x)
    {
      assert NodeOk(s, x);
      if x != p { NodeKept(s, t, x); }
    }
    forall x, y | x in t.nodes && y in t.nodes
      ensures Apart(t, x, y)
    {
      assert Apart(s, x, y);
    }
  }

  /** Rewriting a leaf changes the rows of its own range and no others. */
  lemma {:induction false} RewriteRow(s: Snap, p: PageId, es: seq<Entry>, k: Key)
    requires Inv(s) && p in s.nodes && s.nodes[p].level == 0
    requires LeafOk(s.pages[p].(entries := es), s.nodes[p].low)
    ensures RowAt(Rewrite(s, p, es), k) ==
              if InRange(s.pages[p], s.nodes[p].low, k) then Find(es, k) else RowAt(s, k)
  {
    var t := Rewrite(s, p, es);
    RewriteKeeps(s, p, es);
    if InRange(s.pages[p], s.nodes[p].low, k) {
      FindInLeaf(t, p, k);
    } else {
      assert NodeOk(s, p) && NodeOk(t, p);
      forall e: Entry | e.key == k
        ensures HasEntry(s, e) <==> HasEntry(t, e)
      {
        if HasEntry(s, e) { var x :| EntryIn(s, x, e); assert EntryIn(t, x, e); }
        if HasEntry(t, e) { var x :| EntryIn(t, x, e); assert EntryIn(s, x, e); }
      }
      RowAtFrom(s, t, k);
    }
  }

  lemma RowAtFrom(s: Snap, t: Snap, k: Key)
    requires NodesOk(s) && NodesOk(t)
    requires forall e: Entry :: e.key == k ==> (HasEntry(s, e) <==> HasEntry(t, e))
    ensures RowAt(s, k) == RowAt(t, k)
  {
    hide NodesOk, HasEntry, Rows;
    if k in Rows(s) { RowsHasEntry(s, k); RowsHold(t, Rows(s)[k]); }
    else if k in Rows(t) { RowsHasEntry(t, k); RowsHold(s, Rows(t)[k]); }
  }

  // --- splitting a leaf ----------------------------------------------------------------------

  /** Leaf `p` keeps `lower`; `upper` goes to the new right sibling `q`, which takes over `p`'s
      right link and high key. */
  ghost function SplitLeaf(s: Snap, p: PageId, q: PageId, lower: seq<Entry>, upper: seq<Entry>): Snap
    requires p in s.pages && s.pages[p].Leaf? && upper != []
  {
    var n := s.pages[p];
    var sep := upper[0].key;
    s.(pages := s.pages[q := Leaf(n.link, n.high, upper)][p := Leaf(Some(q), sep, lower)],
       nodes := s.nodes[q := Place(0, sep)])
  }

  /** A new right sibling that starts at `sep`, inside `p`'s range, keeps clear of every other node. */
  lemma SiblingApart(s: Snap, t: Snap, p: PageId, q: PageId, sep: Key)
    requires NodesOk(s) && Typed(t) && p in s.nodes && q !in s.nodes
    requires s.nodes[p].low < sep && !Passed(s.pages[p], sep)
    requires t.nodes == s.nodes[q := Place(s.nodes[p].level, sep)]
    requires forall x :: x in s.nodes && x != p ==> t.pages[x] == s.pages[x]
    requires t.pages[p].link == Some(q) && t.pages[p].high == sep
    requires t.pages[q].link == s.pages[p].link && t.pages[q].high == s.pages[p].high
    ensures forall x, y {:trigger Apart(t, x, y)} :: x in t.nodes && y in t.nodes ==> Apart(t, x, y)
  {
    forall x, y | x in t.nodes && y in t.nodes
      ensures Apart(t, x, y)
    {
      assert NodeOk(s, p);
      if x != q && y != q { assert Apart(s, x, y); }
      if x in s.nodes { assert NodeOk(s, x) && Apart(s, x, p) && Apart(s, p, x); }
      if y in s.nodes { assert NodeOk(s, y) && Apart(s, y, p) && Apart(s, p, y); }
    }
  }

  lemma SplitLeafKeeps(s: Snap, p: PageId, q: PageId, lower: seq<Entry>, upper: seq<Entry>)
    requires Inv(s) && p in s.nodes && s.nodes[p].level == 0 && q !in s.nodes
    requires s.pages[p].entries == lower + upper && lower != [] && upper != []
    ensures Inv(SplitLeaf(s, p, q, lower, upper)) && Extends(s, SplitLeaf(s, p, q, lower, upper))
  {
    var t := SplitLeaf(s, p, q, lower, upper);
    var n := s.pages[p];
    var sep := upper[0].key;
    assert NodeOk(s, p);
    assert n.entries[0] == lower[0] && n.entries[|lower|] == upper[0];
    assert lower[0] in n.entries && upper[0] in n.entries;
    assert lower[0].key < upper[0].key;
    assert Typed(t);
    SplitHalves(n, s.nodes[p].low, lower, upper, q);
    forall x | x in t.nodes
      ensures NodeOk(t, x)
    {
      if x != p && x != q {
        assert NodeOk(s, x);
        NodeKept(s, t, x);
      }
    }
    SiblingApart(s, t, p, q, sep);
  }

  lemma SplitHalves(n: Node, low: Key, lower: seq<Entry>, upper: seq<Entry>, q: PageId)
    requires n.Leaf? && LeafOk(n, low) && n.entries == lower + upper && lower != [] && upper != []
    ensures LeafOk(Leaf(Some(q), upper[0].key, lower), low)
    ensures LeafOk(Leaf(n.link, n.high, upper), upper[0].key)
  {
    forall i | 0 <= i < |lower|
      ensures lower[i] == n.entries[i] && n.entries[i].key < n.entries[|lower|].key
    {}
    forall i | 0 <= i < |upper|
      ensures upper[i] == n.entries[|lower| + i]
    {}
    forall e | e in upper
      ensures e in n.entries && upper[0].key <= e.key
    {
      var i :| 0 <= i < |upper| && upper[i] == e;
      assert n.entries[|lower| + i] == e;
    }
    forall e | e in lower
      ensures e in n.entries && e.key < upper[0].key
    {
      var i :| 0 <= i < |lower| && lower[i] == e;
    }
  }

  lemma SplitLeafRows(s: Snap, p: PageId, q: PageId, lower: seq<Entry>, upper: seq<Entry>)
    requires Inv(s) && p in s.nodes && s.nodes[p].level == 0 && q !in s.nodes
    requires s.pages[p].entries == lower + upper && lower != [] && upper != []
    ensures Inv(SplitLeaf(s, p, q, lower, upper))
    ensures Rows(SplitLeaf(s, p, q, lower, upper)) == Rows(s)
  {
    var t := SplitLeaf(s, p, q, lower, upper);
    SplitLeafKeeps(s, p, q, lower, upper);
    forall e
      ensures HasEntry(s, e) <==> HasEntry(t, e)
    {
      assert e in s.pages[p].entries <==> e in lower || e in upper;
      if HasEntry(s, e) {
        var x :| EntryIn(s, x, e);
        assert x == p || EntryIn(t, x, e);
        assert e in lower ==> EntryIn(t, p, e);
        assert e in upper ==> EntryIn(t, q, e);
      }
      if HasEntry(t, e) {
        var x :| EntryIn(t, x, e);
        assert EntryIn(s, if x == q then p else x, e);
      }
    }
    SameRows(s, t);
  }

  // --- interior nodes: rows do not move ------------------------------------------------------

  /** A step that leaves every leaf as it is, and makes none, leaves the rows as they are. */
  lemma LeavesKept(s: Snap, t: Snap)
    requires NodesOk(s) && NodesOk(t) && Extends(s, t)
    requires forall x :: x in s.nodes && s.nodes[x].level == 0 ==> t.pages[x] == s.pages[x]
    requires forall x :: x in t.nodes && t.nodes[x].level == 0 ==> x in s.nodes
    ensures Rows(s) == Rows(t)
  {
    forall e
      ensures HasEntry(s, e) <==> HasEntry(t, e)
    {
      if HasEntry(s, e) { var p :| EntryIn(s, p, e); assert EntryIn(t, p, e); }
      if HasEntry(t, e) { var p :| EntryIn(t, p, e); assert EntryIn(s, p, e); }
    }
    SameRows(s, t);
  }

  /** Whether some interior node names `c` as a child. */
  ghost predicate Published(s: Snap, c: PageId) {
    exists p :: ParentOf(s, p, c)
  }

  ghost predicate ParentOf(s: Snap, p: PageId, c: PageId) {
    p in s.nodes && p in s.pages && s.pages[p].Interior? && Holds(s.pages[p], c)
  }

  lemma HoldsAsChild(n: Node, c: PageId)
    requires n.Interior?
    ensures Holds(n, c) <==> exists i :: 0 <= i <= |n.slots| && Child(n, i) == c
  {
    if Holds(n, c) {
      if n.rightmost == c { assert Child(n, |n.slots|) == c; }
      else { var i :| 0 <= i < |n.slots| && n.slots[i].child == c; assert Child(n, i) == c; }
    }
  }

  lemma ParentLevel(s: Snap, p: PageId, c: PageId)
    requires NodesOk(s) && ParentOf(s, p, c)
    ensures c in s.nodes && s.nodes[p].level == s.nodes[c].level + 1
    ensures s.nodes[p].low <= s.nodes[c].low && !Passed(s.pages[p], s.nodes[c].low)
  {
    assert NodeOk(s, p);
    var n := s.pages[p];
    HoldsAsChild(n, c);
    var i :| 0 <= i <= |n.slots| && Child(n, i) == c;
    assert ChildOk(s, n, s.nodes[p], i);
  }

  // --- publishing a separator ----------------------------------------------------------------

  /** The first slot that names `c`, or the number of slots. */
  function SlotOf(slots: seq<Slot>, c: PageId): (r: nat)
    ensures r <= |slots|
    ensures r < |slots| ==> slots[r].child == c
    ensures r == |slots| ==> forall i :: 0 <= i < |slots| ==> slots[i].child != c
  {
    if slots == [] || slots[0].child == c then 0 else 1 + SlotOf(slots[1..], c)
  }

  /** Interior node `n` after the slot of `left` is refined into `left` below `sep` and `right`
      from `sep` on. */
  function WithSlot(n: Node, left: PageId, sep: Key, right: PageId): (r: Node)
    requires n.Interior?
    ensures r.Interior? && |r.slots| == |n.slots| + 1
  {
    var pos := SlotOf(n.slots, left);
    if pos < |n.slots| then
      n.(slots := n.slots[..pos] + [Slot(sep, left), Slot(n.slots[pos].sep, right)] + n.slots[pos + 1..])
    else
      n.(slots := n.slots + [Slot(sep, left)], rightmost := right)
  }

  lemma {:induction false} WithSlotChildren(n: Node, left: PageId, sep: Key, right: PageId, low: Key)
    requires n.Interior? && Holds(n, left)
    ensures var r := WithSlot(n, left, sep, right);
            var pos := SlotOf(n.slots, left);
            && Child(n, pos) == left
            && Child(r, pos + 1) == right && ChildLow(r, low, pos + 1) == sep
            && (forall j :: 0 <= j <= pos ==> Child(r, j) == Child(n, j) && ChildLow(r, low, j) == ChildLow(n, low, j))
            && (forall j :: pos + 1 < j <= |r.slots| ==>
                  Child(r, j) == Child(n, j - 1) && ChildLow(r, low, j) == ChildLow(n, low, j - 1))
  {
    var r := WithSlot(n, left, sep, right);
    var pos := SlotOf(n.slots, left);
    if pos < |n.slots| {
      forall j | pos + 1 < j < |r.slots|
        ensures r.slots[j] == n.slots[j - 1]
      {}
      assert r.slots[pos + 1].sep == n.slots[pos].sep;
    }
  }

  ghost function InsertSlot(s: Snap, p: PageId, left: PageId, right: PageId): Snap
    requires p in s.pages && s.pages[p].Interior? && left in s.pages && IsNode(s.pages[left])
  {
    s.(pages := s.pages[p := WithSlot(s.pages[p], left, s.pages[left].high, right)])
  }

  /** The new separator falls strictly between its neighbours: the right sibling it is for starts
      after `left` and, not being named yet, before whatever is named next. */
  lemma {:induction false} SeparatorFits(s: Snap, p: PageId, left: PageId, right: PageId)
    requires NodesOk(s) && ParentOf(s, p, left) && left in s.nodes
    requires s.pages[left].link == Some(right) && !Published(s, right)
    ensures var n := s.pages[p];
            var sep := s.pages[left].high;
            var pos := SlotOf(n.slots, left);
            && right in s.nodes && s.nodes[right] == Place(s.nodes[p].level - 1, sep)
            && ChildLow(n, s.nodes[p].low, pos) < sep && s.nodes[p].low < sep
            && (pos < |n.slots| ==> sep < n.slots[pos].sep)
            && !Passed(n, sep)
  {
    var n := s.pages[p];
    var sep := s.pages[left].high;
    var pos := SlotOf(n.slots, left);
    assert NodeOk(s, p);
    assert Child(n, pos) == left;
    assert ChildOk(s, n, s.nodes[p], pos);
    assert NodeOk(s, left) && NodeOk(s, right);
    if pos < |n.slots| {
      var c := Child(n, pos + 1);
      assert ChildOk(s, n, s.nodes[p], pos + 1);
      HoldsAsChild(n, c);
      assert ParentOf(s, p, c);
      assert Apart(s, left, c) && Apart(s, right, c) && Apart(s, c, right);
    } else if n.link.Some? {
      var q := n.link.value;
      assert NodeOk(s, q);
      var m := s.pages[q];
      var c := Child(m, 0);
      assert ChildOk(s, m, s.nodes[q], 0);
      HoldsAsChild(m, c);
      assert ParentOf(s, q, c);
      assert Apart(s, left, c) && Apart(s, right, c) && Apart(s, c, right);
    }
  }

  lemma InsertSlotKeeps(s: Snap, p: PageId, left: PageId, right: PageId)
    requires Inv(s) && ParentOf(s, p, left)
    requires left in s.nodes && s.pages[left].link == Some(right) && !Published(s, right)
    ensures Inv(InsertSlot(s, p, left, right)) && Rows(InsertSlot(s, p, left, right)) == Rows(s)
    ensures Extends(s, InsertSlot(s, p, left, right))
  {
    var t := InsertSlot(s, p, left, right);
    var n := s.pages[p];
    var r := t.pages[p];
    var sep := s.pages[left].high;
    assert NodeOk(s, p);
    SeparatorFits(s, p, left, right);
    WithSlotChildren(n, left, sep, right, s.nodes[p].low);
    assert Typed(t);
    WithSlotOk(s, p, left, right);
    InteriorKept(s, t, r, s.nodes[p]);
    forall x | x in t.nodes
      ensures NodeOk(t, x)
    {
      assert NodeOk(s, x);
      if x != p { NodeKept(s, t, x); }
    }
    forall x, y | x in t.nodes && y in t.nodes
      ensures Apart(t, x, y)
    {
      assert Apart(s, x, y);
    }
    LeavesKept(s, t);
  }

  ghost predicate Separated(n: Node, low: Key)
    requires n.Interior?
  {
    && (forall i, j :: 0 <= i < j < |n.slots| ==> n.slots[i].sep < n.slots[j].sep)
    && (forall i :: 0 <= i < |n.slots| ==> low < n.slots[i].sep && !Passed(n, n.slots[i].sep))
  }

  lemma {:induction false} WithSlotSep(n: Node, left: PageId, sep: Key, right: PageId, i: nat)
    requires n.Interior? && i <= |n.slots|
    ensures var r := WithSlot(n, left, sep, right);
            var pos := SlotOf(n.slots, left);
            && r.slots[i].sep == (if i < pos then n.slots[i].sep else if i == pos then sep else n.slots[i - 1].sep)
            && r.link == n.link && r.high == n.high
  {
  }

  lemma {:induction false} WithSlotSeparated(n: Node, low: Key, left: PageId, sep: Key, right: PageId)
    requires n.Interior? && Separated(n, low)
    requires var pos := SlotOf(n.slots, left);
             && ChildLow(n, low, pos) < sep && low < sep && !Passed(n, sep)
             && (pos < |n.slots| ==> sep < n.slots[pos].sep)
    ensures Separated(WithSlot(n, left, sep, right), low)
  {
    hide WithSlot;
    var r := WithSlot(n, left, sep, right);
    forall i | 0 <= i < |r.slots|
      ensures low < r.slots[i].sep && !Passed(r, r.slots[i].sep)
    {
      WithSlotSep(n, left, sep, right, i);
    }
    forall i, j | 0 <= i < j < |r.slots|
      ensures r.slots[i].sep < r.slots[j].sep
    {
      WithSlotSep(n, left, sep, right, i);
      WithSlotSep(n, left, sep, right, j);
    }
  }

  lemma WithSlotOk(s: Snap, p: PageId, left: PageId, right: PageId)
    requires NodesOk(s) && ParentOf(s, p, left) && left in s.nodes
    requires s.pages[left].link == Some(right) && !Published(s, right)
    ensures InteriorOk(s, WithSlot(s.pages[p], left, s.pages[left].high, right), s.nodes[p])
  {
    var n := s.pages[p];
    var sep := s.pages[left].high;
    var r := WithSlot(n, left, sep, right);
    var pos := SlotOf(n.slots, left);
    assert NodeOk(s, p);
    SeparatorFits(s, p, left, right);
    WithSlotChildren(n, left, sep, right, s.nodes[p].low);
    WithSlotSeparated(n, s.nodes[p].low, left, sep, right);
    forall i | 0 <= i <= |r.slots|
      ensures ChildOk(s, r, s.nodes[p], i)
    {
      assert i <= pos ==> ChildOk(s, n, s.nodes[p], i);
      assert i > pos + 1 ==> ChildOk(s, n, s.nodes[p], i - 1);
    }
  }

  /** Publishing names the right sibling and forgets nobody. */
  lemma InsertSlotPublishes(s: Snap, p: PageId, left: PageId, right: PageId, c: PageId)
    requires NodesOk(s) && ParentOf(s, p, left) && left in s.nodes
    ensures var t := InsertSlot(s, p, left, right);
            && ParentOf(t, p, right)
            && (Published(s, c) ==> Published(t, c))
            && (c != right && Published(t, c) ==> Published(s, c))
            && (forall x :: ParentOf(t, x, right) ==> x == p || ParentOf(s, x, right))
  {
    var t := InsertSlot(s, p, left, right);
    var n := s.pages[p];
    var r := t.pages[p];
    var pos := SlotOf(n.slots, left);
    WithSlotChildren(n, left, s.pages[left].high, right, 0);
    HoldsAsChild(r, right);
    HoldsAsChild(n, c);
    HoldsAsChild(r, c);
    if Holds(n, c) {
      var i :| 0 <= i <= |n.slots| && Child(n, i) == c;
      assert Child(r, if i <= pos then i else i + 1) == c;
    }
    if c != right && Holds(r, c) {
      var i :| 0 <= i <= |r.slots| && Child(r, i) == c;
      assert Child(n, if i <= pos then i else i - 1) == c;
    }
    if Published(s, c) { var x :| ParentOf(s, x, c); assert ParentOf(t, x, c); }
    if c != right && Published(t, c) { var x :| ParentOf(t, x, c); assert ParentOf(s, x, c); }
  }

  // --- splitting an interior node ------------------------------------------------------------

  function LowerHalf(n: Node, mid: nat, q: PageId): Node
    requires n.Interior? && mid < |n.slots|
  {
    Interior(Some(q), n.slots[mid].sep, n.slots[..mid], n.slots[mid].child)
  }

  function UpperHalf(n: Node, mid: nat): Node
    requires n.Interior? && mid < |n.slots|
  {
    Interior(n.link, n.high, n.slots[mid + 1..], n.rightmost)
  }

  ghost function SplitInterior(s: Snap, p: PageId, q: PageId, mid: nat): Snap
    requires p in s.pages && s.pages[p].Interior? && mid < |s.pages[p].slots| && p in s.nodes
  {
    var n := s.pages[p];
    s.(pages := s.pages[q := UpperHalf(n, mid)][p := LowerHalf(n, mid, q)],
       nodes := s.nodes[q := Place(s.nodes[p].level, n.slots[mid].sep)])
  }

  lemma HalvesChildren(n: Node, mid: nat, q: PageId, low: Key)
    requires n.Interior? && mid < |n.slots|
    ensures var a := LowerHalf(n, mid, q);
            var b := UpperHalf(n, mid);
            && (forall i :: 0 <= i <= mid ==> Child(a, i) == Child(n, i) && ChildLow(a, low, i) == ChildLow(n, low, i))
            && (forall i :: 0 <= i < |n.slots| - mid ==>
                  Child(b, i) == Child(n, mid + 1 + i) && ChildLow(b, n.slots[mid].sep, i) == ChildLow(n, low, mid + 1 + i))
  {
  }

  lemma SplitInteriorKeeps(s: Snap, p: PageId, q: PageId, mid: nat)
    requires Inv(s) && p in s.nodes && s.nodes[p].level > 0 && mid < |s.pages[p].slots| && q !in s.nodes
    ensures Inv(SplitInterior(s, p, q, mid)) && Rows(SplitInterior(s, p, q, mid)) == Rows(s)
    ensures Extends(s, SplitInterior(s, p, q, mid))
  {
    var t := SplitInterior(s, p, q, mid);
    var n := s.pages[p];
    var place := s.nodes[p];
    var sep := n.slots[mid].sep;
    assert NodeOk(s, p);
    assert Typed(t);
    HalvesChildren(n, mid, q, place.low);
    forall i | 0 <= i <= mid
      ensures ChildOk(t, t.pages[p], t.nodes[p], i)
    {
      assert ChildOk(s, n, place, i);
    }
    forall i | 0 <= i <= |t.pages[q].slots|
      ensures ChildOk(t, t.pages[q], t.nodes[q], i)
    {
      assert ChildOk(s, n, place, mid + 1 + i);
    }
    forall x | x in t.nodes
      ensures NodeOk(t, x)
    {
      if x != p && x != q {
        assert NodeOk(s, x);
        NodeKept(s, t, x);
      }
    }
    SiblingApart(s, t, p, q, sep);
    LeavesKept(s, t);
  }

  /** Each child of a split node is named by one of its halves, and nobody else's parent changes. */
  lemma SplitInteriorPublishes(s: Snap, p: PageId, q: PageId, mid: nat, c: PageId)
    requires p in s.nodes && p in s.pages && s.pages[p].Interior? && mid < |s.pages[p].slots| && q !in s.nodes
    ensures Published(SplitInterior(s, p, q, mid), c) <==> Published(s, c)
    ensures forall x :: ParentOf(SplitInterior(s, p, q, mid), x, c) && x != p && x != q ==> ParentOf(s, x, c)
  {
    var t := SplitInterior(s, p, q, mid);
    var n := s.pages[p];
    HalvesChildren(n, mid, q, 0);
    HoldsAsChild(n, c);
    HoldsAsChild(t.pages[p], c);
    HoldsAsChild(t.pages[q], c);
    assert Holds(n, c) <==> Holds(t.pages[p], c) || Holds(t.pages[q], c) by {
      if Holds(n, c) {
        var i :| 0 <= i <= |n.slots| && Child(n, i) == c;
        if i <= mid { assert Child(t.pages[p], i) == c; } else { assert Child(t.pages[q], i - mid - 1) == c; }
      }
      if Holds(t.pages[p], c) { var i :| 0 <= i <= mid && Child(t.pages[p], i) == c; assert Child(n, i) == c; }
      if Holds(t.pages[q], c) {
        var i :| 0 <= i <= |t.pages[q].slots| && Child(t.pages[q], i) == c;
        assert Child(n, mid + 1 + i) == c;
      }
    }
    if Published(s, c) {
      var x :| ParentOf(s, x, c);
      assert x != p ==> ParentOf(t, x, c);
      assert x == p ==> ParentOf(t, p, c) || ParentOf(t, q, c);
    }
    if Published(t, c) {
      var x :| ParentOf(t, x, c);
      assert ParentOf(s, if x == q then p else x, c);
    }
  }

  // --- growing a root ------------------------------------------------------------------------

  function FreshRoot(left: PageId, sep: Key, right: PageId): Node {
    Interior(None, INF_KEY, [Slot(sep, left)], right)
  }

  ghost function GrowRoot(s: Snap, r: PageId, left: PageId, right: PageId): Snap
    requires left in s.nodes && left in s.pages && IsNode(s.pages[left])
  {
    s.(pages := s.pages[r := FreshRoot(left, s.pages[left].high, right)], root := r,
       nodes := s.nodes[r := Place(s.nodes[left].level + 1, s.nodes[left].low)])
  }

  /** A new root over the old one and its right sibling is sound, and reaches both. */
  lemma GrowRootKeeps(s: Snap, r: PageId, right: PageId)
    requires Inv(s) && r !in s.nodes && s.pages[s.root].link == Some(right)
    ensures var t := GrowRoot(s, r, s.root, right);
            Inv(t) && Rows(t) == Rows(s) && Extends(s, t)
  {
    var t := GrowRoot(s, r, s.root, right);
    assert NodeOk(s, s.root);
    assert Typed(t);
    var n := t.pages[r];
    forall i | 0 <= i <= |n.slots|
      ensures ChildOk(t, n, t.nodes[r], i)
    {}
    forall x | x in t.nodes
      ensures NodeOk(t, x)
    {
      if x != r {
        assert NodeOk(s, x);
        NodeKept(s, t, x);
      }
    }
    forall x, y | x in t.nodes && y in t.nodes
      ensures Apart(t, x, y)
    {
      if x != r && y != r { assert Apart(s, x, y); }
    }
    LeavesKept(s, t);
  }

  lemma GrowRootPublishes(s: Snap, r: PageId, left: PageId, right: PageId, c: PageId)
    requires left in s.nodes && left in s.pages && IsNode(s.pages[left]) && r !in s.nodes
    ensures Published(GrowRoot(s, r, left, right), c) <==> Published(s, c) || c == left || c == right
  {
    var t := GrowRoot(s, r, left, right);
    assert Holds(t.pages[r], c) <==> c == left || c == right by {
      assert t.pages[r].slots[0].child == left;
    }
    if Published(s, c) { var x :| ParentOf(s, x, c); assert ParentOf(t, x, c); }
    if c == left || c == right { assert ParentOf(t, r, c); }
    if Published(t, c) { var x :| ParentOf(t, x, c); assert x != r ==> ParentOf(s, x, c); }
  }
}
