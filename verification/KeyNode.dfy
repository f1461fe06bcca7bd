/** The contents of one index page as values: sorted entries, their sizes, and where a position
    goes among them. */
module KeyNode {
  import opened Bytes
  import opened Sequences
  import opened KeyOrder

  type PageId = nat

  /** The most bytes one leaf entry may take. */
  const MAX_ENTRY_BYTES := 2000

  datatype Entry = Entry(pos: Pos, value: seq<byte>)

  datatype Sep = Sep(pos: Pos, child: PageId)

  /** A node page. A missing link is `None`. */
  datatype Node =
    | Leaf(prev: Option<PageId>, next: Option<PageId>, entries: seq<Entry>)
    | Interior(leftmost: PageId, seps: seq<Sep>)

  function EntrySize(e: Entry): nat { 12 + |e.pos.key| + |e.value| }

  function SepSize(p: Pos): nat { 18 + |p.key| }

  predicate Fits(e: Entry) { EntrySize(e) <= MAX_ENTRY_BYTES }

  function Sum(sizes: seq<nat>): nat {
    if sizes == [] then 0 else Sum(sizes[..|sizes| - 1]) + sizes[|sizes| - 1]
  }

  function EntrySizes(es: seq<Entry>): seq<nat> { seq(|es|, i requires 0 <= i < |es| => EntrySize(es[i])) }

  function SepSizes(ps: seq<Pos>): seq<nat> { seq(|ps|, i requires 0 <= i < |ps| => SepSize(ps[i])) }

  /** Whether the entries, with a two-byte offset each, fit a page after its header. */
  predicate LeafFits(es: seq<Entry>) { LEAF_HEADER + 2 * |es| + Sum(EntrySizes(es)) <= PAGE_SIZE }

  predicate InteriorFits(ps: seq<Pos>) { INTERIOR_HEADER + 2 * |ps| + Sum(SepSizes(ps)) <= PAGE_SIZE }

  function Positions(es: seq<Entry>): seq<Pos> { seq(|es|, i requires 0 <= i < |es| => es[i].pos) }

  function SepPositions(seps: seq<Sep>): seq<Pos> { seq(|seps|, i requires 0 <= i < |seps| => seps[i].pos) }

  ghost predicate Ascending(ps: seq<Pos>) {
    forall i, j {:trigger ps[i], ps[j]} :: 0 <= i < j < |ps| ==> Less(ps[i], ps[j])
  }

  ghost predicate Sorted(es: seq<Entry>) {
    forall i, j {:trigger es[i], es[j]} :: 0 <= i < j < |es| ==> Less(es[i].pos, es[j].pos)
  }

  /** `p` goes at `i`: what is before it is smaller, what is from there on is not. */
  ghost predicate IsPlace(ps: seq<Pos>, p: Pos, i: nat) {
    && i <= |ps|
    && (forall j {:trigger ps[j]} :: 0 <= j < i ==> Less(ps[j], p))
    && (forall j {:trigger ps[j]} :: i <= j < |ps| ==> !Less(ps[j], p))
  }

  /** Binary search. */
  method Search(ps: seq<Pos>, p: Pos) returns (found: bool, i: nat)
    requires Ascending(ps)
    ensures IsPlace(ps, p, i)
    ensures found <==> i < |ps| && ps[i] == p
  {
    var lo, hi := 0, |ps|;
    while lo < hi
      invariant 0 <= lo <= hi <= |ps|
      invariant forall j {:trigger ps[j]} :: 0 <= j < lo ==> Less(ps[j], p)
      invariant forall j {:trigger ps[j]} :: hi <= j < |ps| ==> Less(p, ps[j])
    {
      var mid := lo + (hi - lo) / 2;
      Total(ps[mid], p);
      if Less(ps[mid], p) {
        forall j | 0 <= j < mid ensures Less(ps[j], p) { Trans(ps[j], ps[mid], p); }
        lo := mid + 1;
      } else if Less(p, ps[mid]) {
        forall j | mid < j < |ps| ensures Less(p, ps[j]) { Trans(p, ps[mid], ps[j]); }
        hi := mid;
      } else {
        found, i := true, mid;
        forall j | mid <= j < |ps| ensures !Less(ps[j], p) { Total(ps[mid], ps[j]); }
        return;
      }
    }
    found, i := false, lo;
    forall j | lo <= j < |ps| ensures !Less(ps[j], p) && ps[j] != p { Total(p, ps[j]); }
  }

  /** The sequence with an entry put at its place, replacing the one already under its position. */
  function PutAt(es: seq<Entry>, i: nat, e: Entry): seq<Entry>
    requires i <= |es|
  {
    if i < |es| && es[i].pos == e.pos then es[i := e] else es[..i] + [e] + es[i..]
  }

  type Table = map<Pos, seq<byte>>

  function ToMap(es: seq<Entry>): Table {
    if es == [] then map[] else ToMap(es[..|es| - 1])[es[|es| - 1].pos := es[|es| - 1].value]
  }

  lemma {:induction false} ToMapHas(es: seq<Entry>, p: Pos)
    requires Sorted(es)
    ensures forall i {:trigger es[i]} :: 0 <= i < |es| && es[i].pos == p ==> p in ToMap(es) && ToMap(es)[p] == es[i].value
    ensures p in ToMap(es) ==> exists i :: 0 <= i < |es| && es[i].pos == p
    decreases |es|
  {
    if es != [] {
      var n := |es| - 1;
      ToMapHas(es[..n], p);
      forall i | 0 <= i < n && es[i].pos == p ensures es[n].pos != p { Total(p, p); }
      if p in ToMap(es[..n]) && p != es[n].pos {
        var i :| 0 <= i < n && es[..n][i].pos == p;
        assert es[i].pos == p;
      }
    }
  }

  lemma PutSorted(es: seq<Entry>, i: nat, e: Entry)
    requires Sorted(es) && i <= |es| && IsPlace(Positions(es), e.pos, i)
    ensures Sorted(PutAt(es, i, e))
  {
    var out := PutAt(es, i, e);
    var ps := Positions(es);
    forall a, b | 0 <= a < b < |out| ensures Less(out[a].pos, out[b].pos) {
      assert forall j {:trigger ps[j]} :: 0 <= j < |es| ==> ps[j] == es[j].pos;
      if |out| == |es| {
        assert out[a].pos == es[a].pos && out[b].pos == es[b].pos;
      } else if b == i {
        assert Less(ps[a], e.pos);
      } else if a == i {
        assert !Less(ps[b - 1], e.pos);
        Total(ps[b - 1], e.pos);
        if b - 1 > i {
          assert Less(es[i].pos, es[b - 1].pos) && !Less(ps[i], e.pos);
          Total(ps[i], e.pos);
        }
      } else {
        var a', b' := if a < i then a else a - 1, if b < i then b else b - 1;
        assert out[a] == es[a'] && out[b] == es[b'];
      }
    }
  }

  /** Putting an entry at its place sets its position and nothing else. */
  lemma {:induction false} PutMap(es: seq<Entry>, i: nat, e: Entry)
    requires Sorted(es) && i <= |es| && IsPlace(Positions(es), e.pos, i)
    ensures Sorted(PutAt(es, i, e))
    ensures ToMap(PutAt(es, i, e)) == ToMap(es)[e.pos := e.value]
  {
    PutSorted(es, i, e);
    var out := PutAt(es, i, e);
    forall p: Pos ensures p in ToMap(out) <==> p in ToMap(es)[e.pos := e.value] {
      PutOne(es, i, e, p);
    }
    forall p: Pos | p in ToMap(out) ensures ToMap(out)[p] == ToMap(es)[e.pos := e.value][p] {
      PutOne(es, i, e, p);
    }
  }

  lemma {:induction false} PutOne(es: seq<Entry>, i: nat, e: Entry, p: Pos)
    requires Sorted(es) && i <= |es| && IsPlace(Positions(es), e.pos, i) && Sorted(PutAt(es, i, e))
    ensures var out, want := ToMap(PutAt(es, i, e)), ToMap(es)[e.pos := e.value];
            (p in out <==> p in want) && (p in out ==> out[p] == want[p])
  {
    hide ToMap, Sorted, Less, IsPlace, Positions;
    var out := PutAt(es, i, e);
    ToMapHas(es, p);
    ToMapHas(out, p);
    assert out[i] == e;
    if p in ToMap(es) && p != e.pos {
      var k :| 0 <= k < |es| && es[k].pos == p;
      assert out[if k < i || |out| == |es| then k else k + 1] == es[k];
    }
    if p in ToMap(out) && p != e.pos {
      var k :| 0 <= k < |out| && out[k].pos == p;
      assert es[if k < i || |out| == |es| then k else k - 1] == out[k];
    }
  }

  lemma RemoveSorted(es: seq<Entry>, i: nat)
    requires Sorted(es) && i < |es|
    ensures Sorted(RemoveAt(es, i))
  {
    var out := RemoveAt(es, i);
    forall a, b | 0 <= a < b < |out| ensures Less(out[a].pos, out[b].pos) {
      assert out[a] == es[if a < i then a else a + 1] && out[b] == es[if b < i then b else b + 1];
    }
  }

  /** Removing the entry at an index removes its position and nothing else. */
  lemma {:induction false} RemoveMap(es: seq<Entry>, i: nat)
    requires Sorted(es) && i < |es|
    ensures Sorted(RemoveAt(es, i))
    ensures ToMap(RemoveAt(es, i)) == ToMap(es) - {es[i].pos}
  {
    hide ToMap, Sorted, Less;
    var out := RemoveAt(es, i);
    RemoveSorted(es, i);
    forall p: Pos ensures p in ToMap(out) <==> p in ToMap(es) - {es[i].pos} { RemoveOne(es, i, p); }
    forall p: Pos | p in ToMap(out) ensures ToMap(out)[p] == ToMap(es)[p] { RemoveOne(es, i, p); }
  }

  lemma Apart(es: seq<Entry>, i: nat, j: nat)
    requires Sorted(es) && i < |es| && j < |es| && i != j
    ensures es[i].pos != es[j].pos
  {
    Total(es[i].pos, es[j].pos);
  }

  lemma {:induction false} RemoveOne(es: seq<Entry>, i: nat, p: Pos)
    requires Sorted(es) && i < |es| && Sorted(RemoveAt(es, i))
    ensures var out, want := ToMap(RemoveAt(es, i)), ToMap(es) - {es[i].pos};
            (p in out <==> p in want) && (p in out ==> out[p] == want[p])
  {
    hide ToMap, Sorted, Less;
    var out := RemoveAt(es, i);
    ToMapHas(es, p);
    ToMapHas(out, p);
    if p in ToMap(es) && p != es[i].pos {
      var k :| 0 <= k < |es| && es[k].pos == p;
      assert out[if k < i then k else k - 1] == es[k];
    }
    if p in ToMap(out) {
      var k :| 0 <= k < |out| && out[k].pos == p;
      var k' := if k < i then k else k + 1;
      assert es[k'] == out[k];
      Apart(es, i, k');
    }
  }
}
