/** The nodes of the clustered B-link tree: what one 8 KiB page of it holds. */
module BLinkNode {
  import opened Bytes

  const PAGE_SIZE: nat := 8192
  const LEAF_ENTRIES: nat := 19
  const INTERIOR_ENTRIES: nat := 27
  const INTERIOR_ENTRY: nat := 16
  const LEAF_ENTRY_HEADER: nat := 10
  const OVERFLOW_ENTRIES: nat := 11
  const LEAF_CAPACITY: nat := PAGE_SIZE - LEAF_ENTRIES
  const MAX_TUPLE: nat := PAGE_SIZE - LEAF_ENTRIES - LEAF_ENTRY_HEADER
  const OVERFLOW_INLINE_PREFIX: nat := 24
  const OVERFLOW_STUB: nat := OVERFLOW_INLINE_PREFIX + 4 + 8
  const OVERFLOW_PAYLOAD: nat := PAGE_SIZE - OVERFLOW_ENTRIES

  /** Exclusive upper bound stored in a node without a right sibling; no code path compares a
      key with it there, so keys are not restricted to lie below it. */
  const INF_KEY: nat := 0xFFFF_FFFF_FFFF_FFFF

  type Key = nat
  type PageId = nat

  /** One leaf entry: the row id, the bytes kept in the leaf, and whether they are the stub of
      an overflow chain rather than the value itself. */
  datatype Entry = Entry(key: Key, stored: seq<byte>, overflow: bool)

  /** One `(separator, child)` pair: the child covers the keys below the separator. */
  datatype Slot = Slot(sep: Key, child: PageId)

  datatype Node =
    | Leaf(link: Option<PageId>, high: Key, entries: seq<Entry>)
    | Interior(link: Option<PageId>, high: Key, slots: seq<Slot>, rightmost: PageId)
    | Overflow(next: Option<PageId>, payload: seq<byte>)

  predicate IsNode(n: Node) {
    n.Leaf? || n.Interior?
  }

  /** Whether `n` has handed `key` on to its right sibling: the B-link chase test. */
  predicate Passed(n: Node, key: Key)
    requires IsNode(n)
  {
    n.link.Some? && key >= n.high
  }

  // --- leaves ------------------------------------------------------------------------------

  predicate Sorted(es: seq<Entry>) {
    forall i, j :: 0 <= i < j < |es| ==> es[i].key < es[j].key
  }

  function EntrySize(e: Entry): nat {
    LEAF_ENTRY_HEADER + |e.stored|
  }

  function TotalSize(es: seq<Entry>): nat {
    if es == [] then 0 else EntrySize(es[0]) + TotalSize(es[1..])
  }

  /** Whether `es` can be written to one leaf page. */
  predicate LeafFits(es: seq<Entry>) {
    LEAF_ENTRIES + TotalSize(es) <= PAGE_SIZE && |es| <= 0xFFFF
  }

  /** Where `key` is among the sorted entries `es`: its index, or the index it would go to. */
  predicate IsPosition(es: seq<Entry>, key: Key, at: nat) {
    && at <= |es|
    && (forall i :: 0 <= i < at ==> es[i].key < key)
    && (forall i :: at <= i < |es| ==> key <= es[i].key)
  }

  predicate FoundAt(es: seq<Entry>, key: Key, at: nat) {
    at < |es| && es[at].key == key
  }

  /** Binary search by key, as the standard library performs it on a sorted slice. */
  method BinarySearch(es: seq<Entry>, key: Key) returns (at: nat)
    requires Sorted(es)
    ensures IsPosition(es, key, at)
    ensures FoundAt(es, key, at) <==> exists e :: e in es && e.key == key
  {
    var lo, hi := 0, |es|;
    while lo < hi
      invariant 0 <= lo <= hi <= |es|
      invariant forall i :: 0 <= i < lo ==> es[i].key < key
      invariant forall i :: hi <= i < |es| ==> key <= es[i].key
    {
      var mid := lo + (hi - lo) / 2;
      if es[mid].key < key { lo := mid + 1; } else { hi := mid; }
    }
    at := lo;
  }

  /** The entry under `key` in a leaf: the walk over the entries stops at the first key past it. */
  method LeafFind(es: seq<Entry>, key: Key) returns (found: Option<Entry>)
    requires Sorted(es)
    ensures found == Find(es, key)
    ensures found.Some? ==> found.value in es && found.value.key == key
    ensures found.None? ==> forall e :: e in es ==> e.key != key
  {
    FindSound(es, key);
    var i := 0;
    while i < |es|
      invariant 0 <= i <= |es|
      invariant forall j :: 0 <= j < i ==> es[j].key < key
    {
      if es[i].key == key { return Some(es[i]); }
      if es[i].key > key { return None; }
      i := i + 1;
    }
    return None;
  }

  /** The entry with `key` in `es`, if there is one. */
  function Find(es: seq<Entry>, key: Key): Option<Entry> {
    if es == [] then None
    else if es[0].key == key then Some(es[0])
    else Find(es[1..], key)
  }

  lemma {:induction false} FindSound(es: seq<Entry>, key: Key)
    ensures Find(es, key).Some? ==> Find(es, key).value in es && Find(es, key).value.key == key
    ensures Find(es, key).None? ==> forall e :: e in es ==> e.key != key
    ensures Sorted(es) ==> forall e :: e in es && e.key == key ==> Find(es, key) == Some(e)
  {
    if es != [] && es[0].key != key { FindSound(es[1..], key); }
  }

  // --- interiors ---------------------------------------------------------------------------

  predicate InteriorFits(slots: seq<Slot>) {
    INTERIOR_ENTRIES + |slots| * INTERIOR_ENTRY <= PAGE_SIZE && |slots| <= 0xFFFF
  }

  /** The `i`-th child of an interior node; the last one is the rightmost child. */
  function Child(n: Node, i: nat): PageId
    requires n.Interior? && i <= |n.slots|
  {
    if i < |n.slots| then n.slots[i].child else n.rightmost
  }

  /** The least key the `i`-th child covers, in a node whose own least key is `low`. */
  function ChildLow(n: Node, low: Key, i: nat): Key
    requires n.Interior? && i <= |n.slots|
  {
    if i == 0 then low else n.slots[i - 1].sep
  }

  /** The index of the first slot whose separator exceeds `key`. */
  function RouteIndex(slots: seq<Slot>, key: Key): (r: nat)
    ensures r <= |slots|
    ensures r < |slots| ==> key < slots[r].sep
    ensures forall i :: 0 <= i < r ==> slots[i].sep <= key
  {
    if slots == [] || key < slots[0].sep then 0 else 1 + RouteIndex(slots[1..], key)
  }

  /** The child an interior node routes `key` to. */
  method Route(n: Node, key: Key) returns (child: PageId)
    requires n.Interior?
    ensures child == Child(n, RouteIndex(n.slots, key))
  {
    var i := 0;
    while i < |n.slots|
      invariant 0 <= i <= |n.slots|
      invariant RouteIndex(n.slots, key) == i + RouteIndex(n.slots[i..], key)
    {
      if key < n.slots[i].sep { return n.slots[i].child; }
      assert n.slots[i..][1..] == n.slots[i + 1..];
      i := i + 1;
    }
    return n.rightmost;
  }

  predicate Holds(n: Node, child: PageId)
    requires n.Interior?
  {
    (exists i :: 0 <= i < |n.slots| && n.slots[i].child == child) || n.rightmost == child
  }

  // --- overflow stubs ----------------------------------------------------------------------

  datatype Stub = Stub(prefix: seq<byte>, total: nat, first: PageId)

  function EncodeStub(s: Stub): seq<byte> {
    s.prefix + ToLE(s.total, 4) + ToLE(s.first, 8)
  }

  function DecodeStub(bytes: seq<byte>): (r: Option<Stub>)
    ensures r.Some? <==> |bytes| == OVERFLOW_STUB
    ensures r.Some? ==> |r.value.prefix| == OVERFLOW_INLINE_PREFIX && EncodeStub(r.value) == bytes
  {
    if |bytes| != OVERFLOW_STUB then None
    else
      ToFromLE(bytes[24..28]);
      ToFromLE(bytes[28..]);
      Some(Stub(bytes[..24], FromLE(bytes[24..28]), FromLE(bytes[28..])))
  }

  /** A stub reads back as it was written. */
  lemma StubRoundTrip(s: Stub)
    requires |s.prefix| == OVERFLOW_INLINE_PREFIX && s.total < 0x1_0000_0000 && s.first <= INF_KEY
    ensures DecodeStub(EncodeStub(s)) == Some(s)
    ensures var b := EncodeStub(s);
            |b| == 36 && b[..24] == s.prefix && FromLE(b[24..28]) == s.total && FromLE(b[28..36]) == s.first
  {
    var bytes := EncodeStub(s);
    Widths();
    FromToLE(s.total, 4);
    FromToLE(s.first, 8);
    assert bytes[..24] == s.prefix && bytes[24..28] == ToLE(s.total, 4) && bytes[28..] == ToLE(s.first, 8);
    assert bytes[28..36] == bytes[28..];
  }
}
