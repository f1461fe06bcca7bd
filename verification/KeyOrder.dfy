/** Positions in a secondary index: key bytes in lexicographic order, then the row id. */
module KeyOrder {
  import opened Bytes

  const MAX_ROW: nat := 0xFFFF_FFFF_FFFF_FFFF
  type Row = x: nat | x <= MAX_ROW

  datatype Pos = Pos(key: seq<byte>, row: Row)

  predicate KeyLess(a: seq<byte>, b: seq<byte>)
    decreases |a|
  {
    b != [] && (a == [] || a[0] < b[0] || (a[0] == b[0] && KeyLess(a[1..], b[1..])))
  }

  predicate Less(p: Pos, q: Pos) {
    KeyLess(p.key, q.key) || (p.key == q.key && p.row < q.row)
  }

  /** The keys agree up to byte `i`, and there `a` has ended or is less. */
  predicate KeyLessAt(a: seq<byte>, b: seq<byte>, i: nat) {
    i <= |a| && i < |b| && a[..i] == b[..i] && (i < |a| ==> a[i] < b[i])
  }

  lemma KeyLessAtHead(a: seq<byte>, b: seq<byte>, i: nat)
    requires KeyLessAt(a, b, i)
    ensures i > 0 ==> a != [] && a[0] == b[0] && KeyLessAt(a[1..], b[1..], i - 1)
  {
    if i > 0 {
      assert a[..i][0] == b[..i][0];
      assert a[1..][..i - 1] == a[..i][1..] && b[1..][..i - 1] == b[..i][1..];
    }
  }

  lemma KeyLessAtTail(a: seq<byte>, b: seq<byte>, i: nat)
    requires a != [] && b != [] && a[0] == b[0] && KeyLessAt(a[1..], b[1..], i)
    ensures KeyLessAt(a, b, i + 1)
  {
    assert a[..i + 1] == [a[0]] + a[1..][..i] && b[..i + 1] == [b[0]] + b[1..][..i];
  }

  /** The order is that of the first difference, a missing byte being the least. */
  lemma {:induction false} KeyLessSpelled(a: seq<byte>, b: seq<byte>)
    ensures KeyLess(a, b) <==> exists i :: KeyLessAt(a, b, i)
    decreases |a|
  {
    forall i: nat | KeyLessAt(a, b, i) ensures i > 0 ==> a != [] && a[0] == b[0] && KeyLessAt(a[1..], b[1..], i - 1) {
      KeyLessAtHead(a, b, i);
    }
    if b != [] {
      assert a == [] || a[0] < b[0] ==> KeyLessAt(a, b, 0);
      if a != [] && a[0] == b[0] {
        KeyLessSpelled(a[1..], b[1..]);
        if i :| KeyLessAt(a[1..], b[1..], i) { KeyLessAtTail(a, b, i); }
      }
    }
  }

  lemma {:induction false} KeyTotal(a: seq<byte>, b: seq<byte>)
    ensures KeyLess(a, b) || a == b || KeyLess(b, a)
    ensures !(KeyLess(a, b) && KeyLess(b, a)) && !KeyLess(a, a)
    decreases |a|
  {
    if a != [] && b != [] {
      KeyTotal(a[1..], b[1..]);
      KeyTotal(a[1..], a[1..]);
      assert a == [a[0]] + a[1..] && b == [b[0]] + b[1..];
    } else if a != [] {
      KeyTotal(a[1..], a[1..]);
    }
  }

  lemma {:induction false} KeyTrans(a: seq<byte>, b: seq<byte>, c: seq<byte>)
    requires KeyLess(a, b) && KeyLess(b, c)
    ensures KeyLess(a, c)
    decreases |a|
  {
    if a != [] && b[0] == c[0] && a[0] == b[0] {
      KeyTrans(a[1..], b[1..], c[1..]);
    }
  }

  /** Exactly one of less, equal and greater. */
  lemma Total(p: Pos, q: Pos)
    ensures Less(p, q) || p == q || Less(q, p)
    ensures !(Less(p, q) && Less(q, p)) && !Less(p, p)
  {
    KeyTotal(p.key, q.key);
    KeyTotal(p.key, p.key);
  }

  lemma Trans(p: Pos, q: Pos, r: Pos)
    requires Less(p, q) && Less(q, r)
    ensures Less(p, r)
  {
    if KeyLess(p.key, q.key) && KeyLess(q.key, r.key) {
      KeyTrans(p.key, q.key, r.key);
    }
  }

  /** The end of a range of positions: before all of them, at one, or after all. */
  datatype Edge = Lowest | Mark(pos: Pos) | Highest

  /** `p` is at or after the edge; `p` is before it. */
  predicate From(e: Edge, p: Pos) {
    e.Lowest? || (e.Mark? && !Less(p, e.pos))
  }

  predicate Before(p: Pos, e: Edge) {
    e.Highest? || (e.Mark? && Less(p, e.pos))
  }

  predicate Within(lo: Edge, hi: Edge, p: Pos) { From(lo, p) && Before(p, hi) }

  predicate EdgeLe(a: Edge, b: Edge) {
    a.Lowest? || b.Highest? || (a.Mark? && b.Mark? && !Less(b.pos, a.pos))
  }

  /** Widening a range keeps what is in it. */
  lemma Widen(lo: Edge, hi: Edge, lo': Edge, hi': Edge, p: Pos)
    requires Within(lo, hi, p) && EdgeLe(lo', lo) && EdgeLe(hi, hi')
    ensures Within(lo', hi', p)
  {
    if lo.Mark? && lo'.Mark? {
      Total(p, lo.pos);
      Total(p, lo'.pos);
      Total(lo.pos, lo'.pos);
      if Less(p, lo'.pos) && Less(lo'.pos, lo.pos) { Trans(p, lo'.pos, lo.pos); }
    }
    if hi.Mark? && hi'.Mark? {
      Total(hi.pos, hi'.pos);
      if Less(hi.pos, hi'.pos) { Trans(p, hi.pos, hi'.pos); }
    }
  }
}
