/** How one row's history answers observers while a transaction writes it, takes its writes back
    or commits them. */
module MvccHistory {
  import opened Bytes
  import opened Distinctness
  import opened VersionChain
  import opened SnapshotSpec
  import opened MvccInvariant

  /** To whoever does not see the writer, its writes do not exist. */
  lemma {:induction false} UnseenWrites(h: seq<Version>, t: nat, ops: seq<UndoOp>, vals: seq<Option<Tuple>>, seen: iset<nat>)
    requires Stacked(h, t, ops, vals) && t !in seen
    ensures Shown(h, seen) == Shown(Bottom(h, ops), seen)
    decreases |ops|
  {
    if ops != [] {
      var n := |ops| - 1;
      match ops[n]
      case Inserted(_) =>
      case Updated(_, _, _) => UnseenWrites(h[1..], t, ops[..n], vals[..n], seen);
      case Deleted(_, _) =>
        UnseenWrites([Live(h[0])] + h[1..], t, ops[..n], vals[..n], seen);
        assert ([Live(h[0])] + h[1..])[1..] == h[1..];
    }
  }

  /** A row a transaction wrote has its mark on the newest version, and shows its last write. */
  lemma {:induction false} WriterOnTop(h: seq<Version>, t: nat, ops: seq<UndoOp>, vals: seq<Option<Tuple>>)
    requires Stacked(h, t, ops, vals) && ops != [] && t != NO_XMAX
    ensures h != [] && LastStamp(h[0]) == t && |vals| == |ops|
    ensures vals[|vals| - 1] == if h[0].meta.xmax != NO_XMAX then None else Some(h[0].tuple)
    ensures h[0].meta.xmin != t ==>
              && |ops| == 1 && ops[0].Deleted? && h[0].meta.xmax == t
              && Bottom(h, ops) == [Live(h[0])] + h[1..]
  {
  }

  /** The history below the writes is a suffix of it, but for a deletion mark on its newest
      version. */
  lemma {:induction false} BottomIsBelow(h: seq<Version>, t: nat, ops: seq<UndoOp>, vals: seq<Option<Tuple>>, order: map<nat, nat>)
    requires Stacked(h, t, ops, vals) && t in order && t != NO_XMAX
    requires Stamped(Bottom(h, ops), order)
    requires forall x {:trigger order[x]} :: x in order ==> order[x] <= order[t]
    ensures Stamped(h, order)
    decreases |ops|
  {
    if ops != [] {
      var n := |ops| - 1;
      match ops[n]
      case Inserted(_) =>
      case Updated(_, _, _) =>
        BottomIsBelow(h[1..], t, ops[..n], vals[..n], order);
        assert forall i {:trigger h[i]} :: 0 < i < |h| ==> h[i] == h[1..][i - 1];
      case Deleted(_, _) =>
        var below := [Live(h[0])] + h[1..];
        BottomIsBelow(below, t, ops[..n], vals[..n], order);
        assert below[0].meta.xmin in order;
        assert forall i {:trigger h[i]} :: 0 < i < |h| ==> h[i] == below[i];
    }
  }

  /** If everyone's commits count as seen, a history shows its newest version. */
  lemma {:induction false} TopShown(h: seq<Version>, seen: iset<nat>)
    requires h != [] && h[0].meta.xmin in seen && (h[0].meta.xmax != NO_XMAX ==> h[0].meta.xmax in seen)
    ensures Shown(h, seen) == if h[0].meta.xmax != NO_XMAX then None else Some(h[0].tuple)
  {
  }

  /** A committed history looks the same to observers who agree about committed transactions. */
  lemma {:induction false} CommittedAgree(h: seq<Version>, order: map<nat, nat>, a: iset<nat>, b: iset<nat>)
    requires Stamped(h, order)
    requires forall x :: x in order ==> (x in a <==> x in b)
    ensures Shown(h, a) == Shown(h, b)
  {
    AgreeShow(h, a, b);
  }

  lemma {:induction false} LinkedFrame(arena: Arena, use: map<nat, Use>, arena': Arena, use': map<nat, Use>, row: nat, h: seq<Version>)
    requires Linked(arena, use, row, h)
    requires |arena'| >= |arena|
    requires forall i {:trigger use[i]} :: i in use && use[i].Chain? && use[i].row == row && use[i].depth + 1 < |h| && i < |arena| ==>
               i in use' && use'[i] == use[i] && arena'[i] == arena[i]
    ensures Linked(arena', use', row, h)
    decreases |h|
  {
    if |h| > 1 {
      LinkedFrame(arena, use, arena', use', row, h[1..]);
    }
  }

  /** The versions of a stored history are the ones the undo pointers lead to. */
  lemma {:induction false} LinkedFollows(arena: Arena, use: map<nat, Use>, row: nat, h: seq<Version>)
    requires Linked(arena, use, row, h)
    ensures Follows(h[0].meta, arena, h[1..])
    decreases |h|
  {
    if |h| > 1 {
      LinkedFollows(arena, use, row, h[1..]);
      assert h[1..][1..] == h[2..];
    }
  }

  /** The arena and the free list once every slot of a history is given back. */
  ghost function Freed(arena: Arena, h: seq<Version>): Arena
    decreases |h|
  {
    if |h| <= 1 || h[0].meta.undo >= |arena| then arena else Freed(arena[h[0].meta.undo := None], h[1..])
  }

  ghost function Slots(h: seq<Version>): seq<nat>
    decreases |h|
  {
    if |h| <= 1 then [] else [h[0].meta.undo] + Slots(h[1..])
  }

  ghost predicate InChain(use: map<nat, Use>, i: nat, row: nat, depth: nat) {
    i in use && use[i].Chain? && use[i].row == row && use[i].depth < depth
  }

  /** Exactly the slots the row holds are given back, each once. */
  lemma {:induction false} FreedAt(arena: Arena, use: map<nat, Use>, row: nat, h: seq<Version>)
    requires Linked(arena, use, row, h)
    ensures |Freed(arena, h)| == |arena|
    ensures forall i: nat {:trigger Freed(arena, h)[i]} :: i < |arena| ==>
              Freed(arena, h)[i] == if i in Slots(h) then None else arena[i]
    ensures forall k {:trigger Slots(h)[k]} :: 0 <= k < |Slots(h)| ==>
              Slots(h)[k] < |arena| && arena[Slots(h)[k]].Some? && InChain(use, Slots(h)[k], row, |h| - 1)
    ensures Distinct(Slots(h))
    ensures |Slots(h)| == |h| - 1
    ensures forall k {:trigger Slots(h)[k]} {:trigger h[k]} :: 0 <= k < |Slots(h)| ==> Slots(h)[k] == h[k].meta.undo
    decreases |h|
  {
    if |h| > 1 {
      var slot := h[0].meta.undo;
      LinkedFrame(arena, use, arena[slot := None], use, row, h[1..]);
      FreedAt(arena, use, row, h[1..]);
      FreedAt(arena[slot := None], use, row, h[1..]);
      assert slot !in Slots(h[1..]);
    }
  }
}
