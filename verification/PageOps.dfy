/** The operations on a slotted page, each in place, and what they do to the entries it holds. */
module PageOps {
  import opened Bytes
  import opened Sequences
  import opened PageBytes
  import opened SlottedPage

  const KIND_LEAF: byte := 3
  const KIND_INTERIOR: byte := 4

  /** What the page says besides its entries: its kind, and its links or first child. */
  function Head(s: seq<byte>, leaf: bool): seq<byte>
    requires |s| == PAGE_SIZE
  {
    [s[0]] + s[5..Header(leaf)]
  }

  lemma InsertHead(s: seq<byte>, leaf: bool, i: nat, entry: seq<byte>)
    requires |s| == PAGE_SIZE && i <= Count(s) && Header(leaf) + 2 * Count(s) + 2 + |entry| <= Heap(s) <= PAGE_SIZE
    ensures |InsertPage(s, leaf, i, entry)| == PAGE_SIZE && Head(InsertPage(s, leaf, i, entry), leaf) == Head(s, leaf)
  {
    hide InsertPage;
    InsertLength(s, leaf, i, entry);
    var s' := InsertPage(s, leaf, i, entry);
    forall k | k == 0 || 5 <= k < Header(leaf) ensures s'[k] == s[k] { InsertByte(s, leaf, i, entry, k); }
  }

  lemma RemoveHead(s: seq<byte>, leaf: bool, i: nat, at: nat, len: nat)
    requires |s| == PAGE_SIZE && i < Count(s) && Header(leaf) + 2 * Count(s) <= Heap(s) <= at && at + len <= PAGE_SIZE
    ensures |RemovePage(s, leaf, i, at, len)| == PAGE_SIZE && Head(RemovePage(s, leaf, i, at, len), leaf) == Head(s, leaf)
  {
    hide RemovePage;
    RemoveByte(s, leaf, i, at, len, 0);
    var s' := RemovePage(s, leaf, i, at, len);
    forall k | k == 0 || 5 <= k < Header(leaf) ensures s'[k] == s[k] { RemoveByte(s, leaf, i, at, len, k); }
  }

  /** The `i`-th entry, read off the page. */
  lemma CellAt(s: seq<byte>, leaf: bool, es: Cells, offs: seq<nat>, i: nat)
    requires Holds(s, leaf, es, offs) && i < |es|
    ensures Header(leaf) + 2 * i + 2 <= PAGE_SIZE && U16(s, Header(leaf) + 2 * i) == offs[i]
    ensures Heap(s) <= offs[i] && offs[i] + |es[i]| <= PAGE_SIZE && s[offs[i]..offs[i] + |es[i]|] == es[i]
    ensures LenAt(s, leaf, offs[i]) == Some(|es[i]|) && Sized(es[i], leaf)
  {
    hide LenAt;
    assert CellOk(s, leaf, es, offs, i);
    LenLocal(s, leaf, offs[i], es[i]);
  }

  /** Insert an encoded entry as the `i`-th, in the gap between the offsets and the heap: write it
      below the heap, move the later offsets up, and put its own in place. */
  method InsertEntry(page: array<byte>, leaf: bool, i: nat, entry: seq<byte>, ghost es: Cells, ghost offs: seq<nat>)
    returns (ghost offs': seq<nat>)
    requires page.Length == PAGE_SIZE && Holds(page[..], leaf, es, offs) && i <= |es| && Sized(entry, leaf)
    requires Header(leaf) + 2 * |es| + 2 + |entry| <= Heap(page[..])
    modifies page
    ensures Holds(page[..], leaf, InsertAt(es, i, entry), offs')
    ensures Head(page[..], leaf) == old(Head(page[..], leaf)) && Heap(page[..]) == old(Heap(page[..])) - |entry|
  {
    hide Holds, Sized, InsertPage, Count, Heap, Head;
    ghost var s := page[..];
    HoldsFields(s, leaf, es, offs);
    InsertHolds(s, leaf, es, offs, i, entry);
    InsertFields(s, leaf, i, entry);
    InsertHead(s, leaf, i, entry);
    offs' := InsertAt(offs, i, Heap(s) - |entry|);
    InsertBytes(page, leaf, i, entry);
  }

  method InsertBytes(page: array<byte>, leaf: bool, i: nat, entry: seq<byte>)
    requires page.Length == PAGE_SIZE && i <= Count(page[..])
    requires Header(leaf) + 2 * Count(page[..]) + 2 + |entry| <= Heap(page[..]) <= PAGE_SIZE
    modifies page
    ensures page[..] == InsertPage(old(page[..]), leaf, i, entry)
  {
    hide Splice, Bytes16;
    var count := U16(page[..], OFF_COUNT);
    var heap := U16(page[..], OFF_HEAP) - |entry|;
    var from, end := Header(leaf) + 2 * i, Header(leaf) + 2 * count;
    WriteBytes(page, heap, entry);
    CopyWithin(page, from, end, from + 2);
    Write16(page, from, heap);
    Write16(page, OFF_COUNT, count + 1);
    Write16(page, OFF_HEAP, heap);
  }

  lemma HoldsFields(s: seq<byte>, leaf: bool, es: Cells, offs: seq<nat>)
    requires Holds(s, leaf, es, offs)
    ensures |s| == PAGE_SIZE && |es| == |offs| == Count(s) && Header(leaf) + 2 * |es| <= Heap(s) <= PAGE_SIZE
  {
  }

  /** Remove the `i`-th entry. */
  method RemoveEntry(page: array<byte>, leaf: bool, i: nat, ghost es: Cells, ghost offs: seq<nat>)
    requires page.Length == PAGE_SIZE && Holds(page[..], leaf, es, offs) && i < |es|
    modifies page
    ensures |es| == |offs| && Holds(page[..], leaf, RemoveAt(es, i), RemoveAt(offs, i))
    ensures Head(page[..], leaf) == old(Head(page[..], leaf))
  {
    hide Holds, Sized, RemovePage, LenAt, Count, Heap, Head;
    ghost var s := page[..];
    HoldsFields(s, leaf, es, offs);
    CellAt(s, leaf, es, offs, i);
    RemoveKeeps(s, leaf, es, offs, i);
    RemoveHead(s, leaf, i, offs[i], |es[i]|);
    var at := U16(page[..], Header(leaf) + 2 * i);
    var len := LenAt(page[..], leaf, at).value;
    RemoveBytes(page, leaf, i, at, len);
  }

  /** Clear an entry's bytes and close its offset up. */
  method CloseUp(page: array<byte>, leaf: bool, count: nat, i: nat, at: nat, len: nat)
    requires page.Length == PAGE_SIZE && i < Count(page[..]) == count
    requires Header(leaf) + 2 * count <= Heap(page[..]) <= at && at + len <= PAGE_SIZE
    modifies page
    ensures page[..] == ClosedUp(old(page[..]), leaf, i, at, len)
  {
    hide Splice;
    var from := Header(leaf) + 2 * i;
    WriteBytes(page, at, Zeros(len));
    CopyWithin(page, from + 2, Header(leaf) + 2 * count, from);
    WriteBytes(page, Header(leaf) + 2 * (count - 1), [0, 0]);
  }

  lemma ClosedUpLength(s: seq<byte>, leaf: bool, i: nat, at: nat, len: nat)
    requires |s| == PAGE_SIZE && i < Count(s) && Header(leaf) + 2 * Count(s) <= Heap(s) <= at && at + len <= PAGE_SIZE
    ensures |ClosedUp(s, leaf, i, at, len)| == PAGE_SIZE
  {
  }

  /** Clear an entry's bytes, close its offset up, and take back a hole at the heap's edge. */
  method RemoveBytes(page: array<byte>, leaf: bool, i: nat, at: nat, len: nat)
    requires page.Length == PAGE_SIZE && i < Count(page[..])
    requires Header(leaf) + 2 * Count(page[..]) <= Heap(page[..]) <= at && at + len <= PAGE_SIZE
    modifies page
    ensures page[..] == RemovePage(old(page[..]), leaf, i, at, len)
  {
    hide Splice, Bytes16, ClosedUp;
    ghost var s := page[..];
    var count := U16(page[..], OFF_COUNT);
    CloseUp(page, leaf, count, i, at, len);
    ClosedUpLength(s, leaf, i, at, len);
    Write16(page, OFF_COUNT, count - 1);
    RemoveIs(s, leaf, i, at, len);
    var heap := U16(page[..], OFF_HEAP);
    if at == heap { Write16(page, OFF_HEAP, heap + len); }
  }

  lemma RemoveKeeps(s: seq<byte>, leaf: bool, es: Cells, offs: seq<nat>, i: nat)
    requires Holds(s, leaf, es, offs) && i < |es|
    requires |s| == PAGE_SIZE && |es| == |offs| == Count(s) && Header(leaf) + 2 * Count(s) <= Heap(s) <= offs[i] && offs[i] + |es[i]| <= PAGE_SIZE
    ensures Holds(RemovePage(s, leaf, i, offs[i], |es[i]|), leaf, RemoveAt(es, i), RemoveAt(offs, i))
  {
    hide RemovePage, LenAt;
    assert CellOk(s, leaf, es, offs, i);
    RemoveHolds(s, leaf, es, offs, i);
  }

  lemma RemoveIs(s: seq<byte>, leaf: bool, i: nat, at: nat, len: nat)
    requires |s| == PAGE_SIZE && i < Count(s) && Header(leaf) + 2 * Count(s) <= Heap(s) <= at && at + len <= PAGE_SIZE
    ensures |ClosedUp(s, leaf, i, at, len)| == PAGE_SIZE
    ensures var s4 := Splice(ClosedUp(s, leaf, i, at, len), OFF_COUNT, Bytes16(Count(s) - 1));
            && U16(s4, OFF_HEAP) == Heap(s)
            && RemovePage(s, leaf, i, at, len) == if at == Heap(s) then Splice(s4, OFF_HEAP, Bytes16(Heap(s) + len)) else s4
  {
  }

  /** Bytes the live entries take. */
  method LiveBytes(page: array<byte>, leaf: bool, ghost es: Cells, ghost offs: seq<nat>) returns (total: nat)
    requires page.Length == PAGE_SIZE && Holds(page[..], leaf, es, offs)
    ensures total == Total(es)
  {
    hide Holds, LenAt, Sized;
    HoldsFields(page[..], leaf, es, offs);
    total := 0;
    var count := U16(page[..], OFF_COUNT);
    for i := 0 to count
      invariant total == Total(es[..i])
    {
      CellAt(page[..], leaf, es, offs, i);
      assert es[..i + 1][..i] == es[..i];
      var at := U16(page[..], Header(leaf) + 2 * i);
      total := total + LenAt(page[..], leaf, at).value;
    }
    assert es[..|es|] == es;
  }

  /** A compact page with the given entries, or none when they do not fit. */
  method Build(leaf: bool, links: seq<byte>, entries: Cells) returns (ok: bool, page: array<byte>, ghost offs: seq<nat>)
    requires |links| == Header(leaf) - 5
    requires forall i {:trigger entries[i]} :: 0 <= i < |entries| ==> Sized(entries[i], leaf)
    ensures ok <==> Header(leaf) + 2 * |entries| + Total(entries) <= PAGE_SIZE
    ensures ok ==> fresh(page) && page.Length == PAGE_SIZE && Holds(page[..], leaf, entries, offs)
    ensures ok ==> Heap(page[..]) == PAGE_SIZE - Total(entries) && Head(page[..], leaf) == [if leaf then KIND_LEAF else KIND_INTERIOR] + links
  {
    hide Sized, InsertPage, Head;
    page := new byte[PAGE_SIZE](_ => 0);
    offs := [];
    ok := Header(leaf) + 2 * |entries| + Total(entries) <= PAGE_SIZE;
    if !ok { return; }
    Blank(page, leaf, links);
    for i := 0 to |entries|
      invariant Holds(page[..], leaf, entries[..i], offs) && Heap(page[..]) == PAGE_SIZE - Total(entries[..i])
      invariant Head(page[..], leaf) == [if leaf then KIND_LEAF else KIND_INTERIOR] + links
    {
      assert entries[..i + 1][..i] == entries[..i];
      TotalGrows(entries, i + 1);
      offs := InsertEntry(page, leaf, i, entries[i], entries[..i], offs);
      assert InsertAt(entries[..i], i, entries[i]) == entries[..i + 1];
    }
    assert entries[..|entries|] == entries;
  }

  /** A page of the kind, with its links and no entries. */
  method Blank(page: array<byte>, leaf: bool, links: seq<byte>)
    requires page.Length == PAGE_SIZE && |links| == Header(leaf) - 5
    modifies page
    ensures Holds(page[..], leaf, [], []) && Heap(page[..]) == PAGE_SIZE
    ensures Head(page[..], leaf) == [if leaf then KIND_LEAF else KIND_INTERIOR] + links
  {
    page[0] := if leaf then KIND_LEAF else KIND_INTERIOR;
    WriteBytes(page, 5, links);
    Write16(page, OFF_COUNT, 0);
    Write16(page, OFF_HEAP, PAGE_SIZE);
  }

  lemma {:induction false} TotalGrows(es: Cells, i: nat)
    requires i <= |es|
    ensures Total(es[..i]) <= Total(es)
    decreases |es|
  {
    if i < |es| {
      TotalGrows(es[..|es| - 1], i);
      assert es[..|es| - 1][..i] == es[..i];
    } else {
      assert es[..i] == es;
    }
  }

  /** The entries of a page, read off it. */
  method ReadEntries(page: array<byte>, leaf: bool, ghost es: Cells, ghost offs: seq<nat>) returns (entries: Cells)
    requires page.Length == PAGE_SIZE && Holds(page[..], leaf, es, offs)
    ensures entries == es
    ensures forall i {:trigger es[i]} :: 0 <= i < |es| ==> Sized(es[i], leaf)
  {
    hide Holds, LenAt, Sized;
    HoldsFields(page[..], leaf, es, offs);
    entries := [];
    var count := U16(page[..], OFF_COUNT);
    for i := 0 to count
      invariant entries == es[..i] && forall k {:trigger es[k]} :: 0 <= k < i ==> Sized(es[k], leaf)
    {
      CellAt(page[..], leaf, es, offs, i);
      var at := U16(page[..], Header(leaf) + 2 * i);
      entries := entries + [page[..][at..at + LenAt(page[..], leaf, at).value]];
    }
  }

  /** Rewrite a node with its holes squeezed out. */
  method Compact(page: array<byte>, leaf: bool, ghost es: Cells, ghost offs: seq<nat>) returns (ghost offs': seq<nat>)
    requires page.Length == PAGE_SIZE && Holds(page[..], leaf, es, offs)
    requires page[0] == if leaf then KIND_LEAF else KIND_INTERIOR
    modifies page
    ensures Holds(page[..], leaf, es, offs') && Heap(page[..]) == PAGE_SIZE - Total(es)
    ensures Head(page[..], leaf) == old(Head(page[..], leaf))
  {
    hide Holds, Sized, Heap;
    HoldsFields(page[..], leaf, es, offs);
    HoldsTotal(page[..], leaf, es, offs);
    var entries := ReadEntries(page, leaf, es, offs);
    var links := page[..][5..Header(leaf)];
    var ok, newPage;
    ok, newPage, offs' := Build(leaf, links, entries);
    WriteBytes(page, 0, newPage[..]);
    assert page[..] == newPage[..];
  }

  /** Insert an entry in place: it fits the gap, or the gap once holes are squeezed out, or the node
      must split, and is then untouched. */
  method InsertInPlace(page: array<byte>, leaf: bool, i: nat, entry: seq<byte>, ghost es: Cells, ghost offs: seq<nat>)
    returns (ok: bool, ghost offs': seq<nat>)
    requires page.Length == PAGE_SIZE && Holds(page[..], leaf, es, offs) && i <= |es| && Sized(entry, leaf)
    requires page[0] == if leaf then KIND_LEAF else KIND_INTERIOR
    modifies page
    ensures ok <==> Header(leaf) + 2 * (|es| + 1) + Total(es) + |entry| <= PAGE_SIZE
    ensures ok ==> Holds(page[..], leaf, InsertAt(es, i, entry), offs') && Head(page[..], leaf) == old(Head(page[..], leaf))
    ensures !ok ==> page[..] == old(page[..])
  {
    hide Holds, Sized, Head;
    HoldsFields(page[..], leaf, es, offs);
    HoldsTotal(page[..], leaf, es, offs);
    offs' := offs;
    var count, heap := U16(page[..], OFF_COUNT), U16(page[..], OFF_HEAP);
    if heap - (Header(leaf) + 2 * count) >= |entry| + 2 {
      offs' := InsertEntry(page, leaf, i, entry, es, offs);
      return true, offs';
    }
    var live := LiveBytes(page, leaf, es, offs);
    if Header(leaf) + 2 * (count + 1) + live + |entry| > PAGE_SIZE {
      return false, offs;
    }
    offs' := Compact(page, leaf, es, offs);
    offs' := InsertEntry(page, leaf, i, entry, es, offs');
    ok := true;
  }
}
