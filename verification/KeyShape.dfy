/** The index as a tree of nodes, and a path down it as the nodes passed and the child taken at
    each. */
module KeyShape {
  import opened Bytes
  import opened Sequences
  import opened KeyOrder
  import opened KeyNode

  datatype Tree =
    | Tip(id: PageId, entries: seq<Entry>)
    | Branch(id: PageId, kids: seq<Tree>, seps: seq<Pos>)

  /** One step down: the branch, and the child taken. */
  datatype Step = Step(node: Tree, at: nat)

  // Leaves, entries and pages in order -----------------------------------------------------------

  ghost function Leaves(t: Tree): seq<Tree> {
    match t
    case Tip(_, _) => [t]
    case Branch(_, kids, _) => LeavesOf(kids)
  }

  ghost function LeavesOf(ts: seq<Tree>): seq<Tree> {
    if ts == [] then [] else Leaves(ts[0]) + LeavesOf(ts[1..])
  }

  ghost function Entries(leaves: seq<Tree>): seq<Entry> {
    if leaves == [] then []
    else (if leaves[0].Tip? then leaves[0].entries else []) + Entries(leaves[1..])
  }

  ghost function Ids(t: Tree): set<PageId> {
    match t
    case Tip(id, _) => {id}
    case Branch(id, kids, _) => {id} + IdsOf(kids)
  }

  ghost function IdsOf(ts: seq<Tree>): set<PageId> {
    if ts == [] then {} else Ids(ts[0]) + IdsOf(ts[1..])
  }

  /** No page is named twice. */
  ghost predicate Once(t: Tree) {
    match t
    case Tip(_, _) => true
    case Branch(id, kids, _) => id !in IdsOf(kids) && OnceAll(kids)
  }

  ghost predicate OnceAll(ts: seq<Tree>) {
    ts != [] ==> Once(ts[0]) && Ids(ts[0]) !! IdsOf(ts[1..]) && OnceAll(ts[1..])
  }

  lemma {:induction false} LeavesJoin(a: seq<Tree>, b: seq<Tree>)
    ensures LeavesOf(a + b) == LeavesOf(a) + LeavesOf(b)
    decreases |a|
  {
    if a == [] {
      assert a + b == b;
    } else {
      LeavesJoin(a[1..], b);
      assert (a + b)[1..] == a[1..] + b;
    }
  }

  lemma Reassociate<T>(a: seq<T>, b: seq<T>, c: seq<T>)
    ensures (a + b) + c == a + (b + c)
  {
  }

  lemma {:induction false} EntriesJoin(a: seq<Tree>, b: seq<Tree>)
    ensures Entries(a + b) == Entries(a) + Entries(b)
    decreases |a|
  {
    if a == [] {
      assert a + b == b;
    } else {
      EntriesJoin(a[1..], b);
      assert (a + b)[0] == a[0] && (a + b)[1..] == a[1..] + b;
      Reassociate(if a[0].Tip? then a[0].entries else [], Entries(a[1..]), Entries(b));
    }
  }

  lemma {:induction false} IdsJoin(a: seq<Tree>, b: seq<Tree>)
    ensures IdsOf(a + b) == IdsOf(a) + IdsOf(b)
    decreases |a|
  {
    if a == [] {
      assert a + b == b;
    } else {
      IdsJoin(a[1..], b);
      assert (a + b)[1..] == a[1..] + b;
    }
  }

  lemma {:induction false} OnceJoin(a: seq<Tree>, b: seq<Tree>)
    ensures OnceAll(a + b) <==> OnceAll(a) && OnceAll(b) && IdsOf(a) !! IdsOf(b)
    decreases |a|
  {
    if a == [] {
      assert a + b == b;
    } else {
      OnceJoin(a[1..], b);
      IdsJoin(a[1..], b);
      assert (a + b)[1..] == a[1..] + b;
    }
  }

  lemma {:induction false} SingleTree(t: Tree)
    ensures LeavesOf([t]) == Leaves(t) && IdsOf([t]) == Ids(t) && (OnceAll([t]) <==> Once(t))
  {
    assert [t][1..] == [];
  }

  // Ranges ---------------------------------------------------------------------------------------

  /** The range of child `i` of a branch whose own range is `lo..hi`. */
  function LoOf(seps: seq<Pos>, i: nat, lo: Edge): Edge
    requires i <= |seps|
  {
    if i == 0 then lo else Mark(seps[i - 1])
  }

  function HiOf(seps: seq<Pos>, i: nat, hi: Edge): Edge
    requires i <= |seps|
  {
    if i == |seps| then hi else Mark(seps[i])
  }

  ghost predicate LeafOk(es: seq<Entry>, lo: Edge, hi: Edge) {
    && Sorted(es) && LeafFits(es)
    && (forall i {:trigger es[i]} :: 0 <= i < |es| ==> Fits(es[i]) && Within(lo, hi, es[i].pos))
  }

  ghost predicate SepsIn(seps: seq<Pos>, lo: Edge, hi: Edge) {
    && Ascending(seps)
    && (forall i {:trigger seps[i]} :: 0 <= i < |seps| ==> |seps[i].key| + 12 <= MAX_ENTRY_BYTES && Within(lo, hi, seps[i]))
  }

  ghost predicate SepsOk(seps: seq<Pos>, lo: Edge, hi: Edge) { SepsIn(seps, lo, hi) && InteriorFits(seps) }

  /** A tree of `level` levels over its leaves, all of them at one depth, with every position in
      the range its place gives it. */
  ghost predicate Good(t: Tree, level: nat, lo: Edge, hi: Edge)
    decreases t
  {
    match t
    case Tip(_, es) => level == 0 && LeafOk(es, lo, hi)
    case Branch(_, kids, seps) => level > 0 && SepsOk(seps, lo, hi) && KidsGood(kids, seps, level - 1, lo, hi)
  }

  ghost predicate KidsGood(kids: seq<Tree>, seps: seq<Pos>, level: nat, lo: Edge, hi: Edge)
    decreases kids
  {
    && |kids| == |seps| + 1
    && (forall i {:trigger kids[i]} :: 0 <= i < |kids| ==> Good(kids[i], level, LoOf(seps, i, lo), HiOf(seps, i, hi)))
  }

  /** No leaf is empty. */
  ghost predicate Full(t: Tree) {
    match t
    case Tip(_, es) => es != []
    case Branch(_, kids, _) => forall i {:trigger kids[i]} :: 0 <= i < |kids| ==> Full(kids[i])
  }

  lemma {:induction false} GoodWiden(t: Tree, level: nat, lo: Edge, hi: Edge, lo': Edge, hi': Edge)
    requires Good(t, level, lo, hi) && EdgeLe(lo', lo) && EdgeLe(hi, hi')
    ensures Good(t, level, lo', hi')
    decreases t
  {
    match t
    case Tip(_, es) =>
      forall i | 0 <= i < |es| ensures Within(lo', hi', es[i].pos) { Widen(lo, hi, lo', hi', es[i].pos); }
    case Branch(_, kids, seps) =>
      forall i | 0 <= i < |seps| ensures Within(lo', hi', seps[i]) { Widen(lo, hi, lo', hi', seps[i]); }
      forall i | 0 <= i < |kids| ensures Good(kids[i], level - 1, LoOf(seps, i, lo'), HiOf(seps, i, hi')) {
        EdgeSelf(LoOf(seps, i, lo));
        EdgeSelf(HiOf(seps, i, hi));
        GoodWiden(kids[i], level - 1, LoOf(seps, i, lo), HiOf(seps, i, hi), LoOf(seps, i, lo'), HiOf(seps, i, hi'));
      }
  }

  lemma EdgeSelf(e: Edge)
    ensures EdgeLe(e, e)
  {
    if e.Mark? { Total(e.pos, e.pos); }
  }
}
