/** A slotted page: after the header, a sorted array of two-byte offsets; the entries themselves are
    packed from the end of the page downward, with holes where entries were removed. */
module SlottedPage {
  import opened Bytes
  import opened Sequences
  import opened PageBytes

  const OFF_COUNT := 1
  const OFF_HEAP := 3

  function Header(leaf: bool): nat { if leaf then LEAF_HEADER else INTERIOR_HEADER }

  type Cells = seq<seq<byte>>

  function Count(s: seq<byte>): nat
    requires |s| == PAGE_SIZE
  {
    U16(s, OFF_COUNT)
  }

  function Heap(s: seq<byte>): nat
    requires |s| == PAGE_SIZE
  {
    U16(s, OFF_HEAP)
  }

  /** The length an entry at `at` declares: a leaf entry names its key and value lengths, a
      separator its key length. */
  function LenAt(s: seq<byte>, leaf: bool, at: nat): Option<nat> {
    if at + 2 > |s| then None
    else
      var key := U16(s, at);
      if !leaf then Some(18 + key)
      else if at + 2 + key + 8 + 2 > |s| then None
      else Some(12 + key + U16(s, at + 2 + key + 8))
  }

  /** An entry declares its own length. */
  predicate Sized(e: seq<byte>, leaf: bool) { LenAt(e, leaf, 0) == Some(|e|) && |e| >= 12 }

  lemma LenLocal(s: seq<byte>, leaf: bool, at: nat, e: seq<byte>)
    requires at + |e| <= |s| && s[at..at + |e|] == e && Sized(e, leaf)
    ensures LenAt(s, leaf, at) == Some(|e|)
  {
    assert forall k {:trigger s[at + k]} :: 0 <= k < |e| ==> s[at + k] == e[k];
    assert e[0] == s[at + 0] && e[1] == s[at + 1];
    if leaf {
      var v := 2 + U16(e, 0) + 8;
      assert e[v] == s[at + v] && e[v + 1] == s[at + (v + 1)];
    }
  }

  ghost predicate Apart(a: nat, e: seq<byte>, b: nat, f: seq<byte>) { a + |e| <= b || b + |f| <= a }

  /** One entry lies where its offset says, above the heap mark. */
  ghost predicate CellOk(s: seq<byte>, leaf: bool, es: Cells, offs: seq<nat>, i: nat)
    requires |s| == PAGE_SIZE && i < |es| == |offs| && Header(leaf) + 2 * |es| <= PAGE_SIZE
  {
    && U16(s, Header(leaf) + 2 * i) == offs[i]
    && Heap(s) <= offs[i] && offs[i] + |es[i]| <= PAGE_SIZE
    && s[offs[i]..offs[i] + |es[i]|] == es[i]
    && Sized(es[i], leaf)
  }

  ghost predicate AllApart(es: Cells, offs: seq<nat>)
    requires |es| == |offs|
  {
    forall i, j {:trigger offs[i], offs[j]} :: 0 <= i < j < |es| ==> Apart(offs[i], es[i], offs[j], es[j])
  }

  /** The page holds the entries `es`, in order, at the offsets `offs`: offsets below the heap mark,
      entries above it, none overlapping another. */
  ghost predicate Holds(s: seq<byte>, leaf: bool, es: Cells, offs: seq<nat>) {
    && |s| == PAGE_SIZE && |es| == |offs| == Count(s)
    && Header(leaf) + 2 * |es| <= Heap(s) <= PAGE_SIZE
    && (forall i: nat {:trigger CellOk(s, leaf, es, offs, i)} :: i < |es| ==> CellOk(s, leaf, es, offs, i))
    && AllApart(es, offs)
  }

  // Inserting ------------------------------------------------------------------------------------

  /** The page after an entry is written below the heap and its offset put in place. */
  function InsertPage(s: seq<byte>, leaf: bool, i: nat, entry: seq<byte>): seq<byte>
    requires |s| == PAGE_SIZE && i <= Count(s) && Header(leaf) + 2 * Count(s) + 2 + |entry| <= Heap(s) <= PAGE_SIZE
  {
    var n, heap := Count(s), Heap(s) - |entry|;
    var from, end := Header(leaf) + 2 * i, Header(leaf) + 2 * n;
    var s1 := Splice(s, heap, entry);
    var s2 := Splice(s1, from + 2, s1[from..end]);
    var s3 := Splice(s2, from, Bytes16(heap));
    var s4 := Splice(s3, OFF_COUNT, Bytes16(n + 1));
    Splice(s4, OFF_HEAP, Bytes16(heap))
  }

  /** Byte by byte. */
  lemma InsertByte(s: seq<byte>, leaf: bool, i: nat, entry: seq<byte>, k: nat)
    requires |s| == PAGE_SIZE && i <= Count(s) && Header(leaf) + 2 * Count(s) + 2 + |entry| <= Heap(s) <= PAGE_SIZE && k < PAGE_SIZE
    ensures var n, heap := Count(s), Heap(s) - |entry|;
            var from, end := Header(leaf) + 2 * i, Header(leaf) + 2 * n;
            InsertPage(s, leaf, i, entry)[k]
            == if OFF_COUNT <= k < OFF_COUNT + 2 then Bytes16(n + 1)[k - OFF_COUNT]
               else if OFF_HEAP <= k < OFF_HEAP + 2 then Bytes16(heap)[k - OFF_HEAP]
               else if from <= k < from + 2 then Bytes16(heap)[k - from]
               else if from + 2 <= k < end + 2 then s[k - 2]
               else if heap <= k < heap + |entry| then entry[k - heap]
               else s[k]
  {
  }

  lemma InsertFields(s: seq<byte>, leaf: bool, i: nat, entry: seq<byte>)
    requires |s| == PAGE_SIZE && i <= Count(s) && Header(leaf) + 2 * Count(s) + 2 + |entry| <= Heap(s) <= PAGE_SIZE
    ensures var s' := InsertPage(s, leaf, i, entry);
            && |s'| == PAGE_SIZE && Count(s') == Count(s) + 1 && Heap(s') == Heap(s) - |entry|
  {
    hide InsertPage;
    var n, heap := Count(s), Heap(s) - |entry|;
    InsertByte(s, leaf, i, entry, OFF_COUNT);
    InsertByte(s, leaf, i, entry, OFF_COUNT + 1);
    InsertByte(s, leaf, i, entry, OFF_HEAP);
    InsertByte(s, leaf, i, entry, OFF_HEAP + 1);
    InsertLength(s, leaf, i, entry);
  }

  lemma InsertLength(s: seq<byte>, leaf: bool, i: nat, entry: seq<byte>)
    requires |s| == PAGE_SIZE && i <= Count(s) && Header(leaf) + 2 * Count(s) + 2 + |entry| <= Heap(s) <= PAGE_SIZE
    ensures |InsertPage(s, leaf, i, entry)| == PAGE_SIZE
  {
  }

  lemma InsertOffset(s: seq<byte>, leaf: bool, i: nat, entry: seq<byte>, j: nat)
    requires |s| == PAGE_SIZE && i <= Count(s) && Header(leaf) + 2 * Count(s) + 2 + |entry| <= Heap(s) <= PAGE_SIZE && j <= Count(s)
    ensures |InsertPage(s, leaf, i, entry)| == PAGE_SIZE
    ensures var s', h := InsertPage(s, leaf, i, entry), Header(leaf);
            U16(s', h + 2 * j) == if j < i then U16(s, h + 2 * j) else if j == i then Heap(s) - |entry| else U16(s, h + 2 * (j - 1))
  {
    hide InsertPage;
    InsertLength(s, leaf, i, entry);
    InsertByte(s, leaf, i, entry, Header(leaf) + 2 * j);
    InsertByte(s, leaf, i, entry, Header(leaf) + 2 * j + 1);
  }

  lemma InsertRange(s: seq<byte>, leaf: bool, i: nat, entry: seq<byte>, lo: nat, hi: nat)
    requires |s| == PAGE_SIZE && i <= Count(s) && Header(leaf) + 2 * Count(s) + 2 + |entry| <= Heap(s) <= PAGE_SIZE
    requires Heap(s) <= lo <= hi <= PAGE_SIZE
    ensures |InsertPage(s, leaf, i, entry)| == PAGE_SIZE
    ensures InsertPage(s, leaf, i, entry)[lo..hi] == s[lo..hi]
    ensures InsertPage(s, leaf, i, entry)[Heap(s) - |entry|..Heap(s)] == entry
  {
    hide InsertPage;
    InsertLength(s, leaf, i, entry);
    var s' := InsertPage(s, leaf, i, entry);
    forall k | lo <= k < hi ensures s'[k] == s[k] { InsertByte(s, leaf, i, entry, k); }
    forall k | Heap(s) - |entry| <= k < Heap(s) ensures s'[k] == entry[k - (Heap(s) - |entry|)] { InsertByte(s, leaf, i, entry, k); }
  }

  lemma InsertedCell(s: seq<byte>, leaf: bool, es: Cells, offs: seq<nat>, i: nat, entry: seq<byte>)
    requires Holds(s, leaf, es, offs) && i <= |es| && Sized(entry, leaf) && Header(leaf) + 2 * |es| + 2 + |entry| <= Heap(s)
    ensures |InsertPage(s, leaf, i, entry)| == PAGE_SIZE
    ensures CellOk(InsertPage(s, leaf, i, entry), leaf, InsertAt(es, i, entry), InsertAt(offs, i, Heap(s) - |entry|), i)
  {
    hide InsertPage, Sized, CellOk, AllApart;
    InsertFields(s, leaf, i, entry);
    InsertOffset(s, leaf, i, entry, i);
    InsertRange(s, leaf, i, entry, PAGE_SIZE, PAGE_SIZE);
    CellIs(InsertPage(s, leaf, i, entry), leaf, InsertAt(es, i, entry), InsertAt(offs, i, Heap(s) - |entry|), i);
  }

  lemma InsertCell(s: seq<byte>, leaf: bool, es: Cells, offs: seq<nat>, i: nat, entry: seq<byte>, j: nat)
    requires Holds(s, leaf, es, offs) && i <= |es| && Header(leaf) + 2 * |es| + 2 + |entry| <= Heap(s) && j <= |es| && j != i
    ensures |InsertPage(s, leaf, i, entry)| == PAGE_SIZE
    ensures CellOk(InsertPage(s, leaf, i, entry), leaf, InsertAt(es, i, entry), InsertAt(offs, i, Heap(s) - |entry|), j)
  {
    hide InsertPage, Sized, AllApart;
    var k := if j < i then j else j - 1;
    assert InsertAt(es, i, entry)[j] == es[k] && InsertAt(offs, i, Heap(s) - |entry|)[j] == offs[k];
    assert CellOk(s, leaf, es, offs, k);
    InsertFields(s, leaf, i, entry);
    InsertOffset(s, leaf, i, entry, j);
    InsertRange(s, leaf, i, entry, offs[k], offs[k] + |es[k]|);
  }

  lemma CellIs(s: seq<byte>, leaf: bool, es: Cells, offs: seq<nat>, i: nat)
    requires |s| == PAGE_SIZE && i < |es| == |offs| && Header(leaf) + 2 * |es| <= PAGE_SIZE
    requires U16(s, Header(leaf) + 2 * i) == offs[i]
    requires Heap(s) <= offs[i] && offs[i] + |es[i]| <= PAGE_SIZE && s[offs[i]..offs[i] + |es[i]|] == es[i] && Sized(es[i], leaf)
    ensures CellOk(s, leaf, es, offs, i)
  {
  }

  /** The new entry is there, at its place, and the others with it. */
  lemma InsertHolds(s: seq<byte>, leaf: bool, es: Cells, offs: seq<nat>, i: nat, entry: seq<byte>)
    requires Holds(s, leaf, es, offs) && i <= |es| && Sized(entry, leaf) && Header(leaf) + 2 * |es| + 2 + |entry| <= Heap(s)
    ensures Holds(InsertPage(s, leaf, i, entry), leaf, InsertAt(es, i, entry), InsertAt(offs, i, Heap(s) - |entry|))
  {
    hide InsertPage, Sized;
    var s', heap := InsertPage(s, leaf, i, entry), Heap(s) - |entry|;
    var es', offs' := InsertAt(es, i, entry), InsertAt(offs, i, heap);
    InsertFields(s, leaf, i, entry);
    forall j: nat | j < |es'| ensures CellOk(s', leaf, es', offs', j) {
      if j == i { InsertedCell(s, leaf, es, offs, i, entry); } else { InsertCell(s, leaf, es, offs, i, entry, j); }
    }
    InsertApart(s, leaf, es, offs, i, entry);
  }

  lemma InsertApart(s: seq<byte>, leaf: bool, es: Cells, offs: seq<nat>, i: nat, entry: seq<byte>)
    requires Holds(s, leaf, es, offs) && i <= |es| && |entry| <= Heap(s)
    ensures AllApart(InsertAt(es, i, entry), InsertAt(offs, i, Heap(s) - |entry|))
  {
    var heap := Heap(s) - |entry|;
    var es', offs' := InsertAt(es, i, entry), InsertAt(offs, i, heap);
    forall a, b | 0 <= a < b < |es'| ensures Apart(offs'[a], es'[a], offs'[b], es'[b]) {
      var a', b' := if a < i then a else a - 1, if b < i then b else b - 1;
      if a == i {
        assert CellOk(s, leaf, es, offs, b') && offs'[b] == offs[b'];
      } else if b == i {
        assert CellOk(s, leaf, es, offs, a') && offs'[a] == offs[a'];
      } else {
        assert offs'[a] == offs[a'] && offs'[b] == offs[b'] && es'[a] == es[a'] && es'[b] == es[b'];
      }
    }
  }

  // Removing -------------------------------------------------------------------------------------

  /** The page with an entry's bytes zeroed and the offsets after its own moved down. */
  function ClosedUp(s: seq<byte>, leaf: bool, i: nat, at: nat, len: nat): seq<byte>
    requires |s| == PAGE_SIZE && i < Count(s) && Header(leaf) + 2 * Count(s) <= Heap(s) <= at && at + len <= PAGE_SIZE
  {
    var from, end := Header(leaf) + 2 * i, Header(leaf) + 2 * Count(s);
    var s1 := Splice(s, at, Zeros(len));
    var s2 := Splice(s1, from, s1[from + 2..end]);
    Splice(s2, end - 2, [0, 0])
  }

  lemma ClosedUpByte(s: seq<byte>, leaf: bool, i: nat, at: nat, len: nat, k: nat)
    requires |s| == PAGE_SIZE && i < Count(s) && Header(leaf) + 2 * Count(s) <= Heap(s) <= at && at + len <= PAGE_SIZE && k < PAGE_SIZE
    ensures |ClosedUp(s, leaf, i, at, len)| == PAGE_SIZE
    ensures var from, end := Header(leaf) + 2 * i, Header(leaf) + 2 * Count(s);
            ClosedUp(s, leaf, i, at, len)[k]
            == if end - 2 <= k < end then 0
               else if from <= k < end - 2 then s[k + 2]
               else if at <= k < at + len then 0
               else s[k]
  {
  }

  /** The page after an entry's bytes are cleared and its offset closed up; a hole at the heap's edge
      is taken back at once. */
  function RemovePage(s: seq<byte>, leaf: bool, i: nat, at: nat, len: nat): seq<byte>
    requires |s| == PAGE_SIZE && i < Count(s) && Header(leaf) + 2 * Count(s) <= Heap(s) <= at && at + len <= PAGE_SIZE
  {
    var s4 := Splice(ClosedUp(s, leaf, i, at, len), OFF_COUNT, Bytes16(Count(s) - 1));
    if at == Heap(s) then Splice(s4, OFF_HEAP, Bytes16(Heap(s) + len)) else s4
  }

  lemma RemoveByte(s: seq<byte>, leaf: bool, i: nat, at: nat, len: nat, k: nat)
    requires |s| == PAGE_SIZE && i < Count(s) && Header(leaf) + 2 * Count(s) <= Heap(s) <= at && at + len <= PAGE_SIZE && k < PAGE_SIZE
    ensures |RemovePage(s, leaf, i, at, len)| == PAGE_SIZE
    ensures var n := Count(s);
            var from, end := Header(leaf) + 2 * i, Header(leaf) + 2 * n;
            RemovePage(s, leaf, i, at, len)[k]
            == if OFF_COUNT <= k < OFF_COUNT + 2 then Bytes16(n - 1)[k - OFF_COUNT]
               else if OFF_HEAP <= k < OFF_HEAP + 2 then Bytes16(if at == Heap(s) then Heap(s) + len else Heap(s))[k - OFF_HEAP]
               else if end - 2 <= k < end then 0
               else if from <= k < end - 2 then s[k + 2]
               else if at <= k < at + len then 0
               else s[k]
  {
    hide ClosedUp;
    ClosedUpByte(s, leaf, i, at, len, k);
  }

  lemma RemoveFields(s: seq<byte>, leaf: bool, i: nat, at: nat, len: nat)
    requires |s| == PAGE_SIZE && i < Count(s) && Header(leaf) + 2 * Count(s) <= Heap(s) <= at && at + len <= PAGE_SIZE
    ensures var s' := RemovePage(s, leaf, i, at, len);
            && |s'| == PAGE_SIZE && Count(s') == Count(s) - 1
            && Heap(s') == if at == Heap(s) then Heap(s) + len else Heap(s)
  {
    hide RemovePage;
    RemoveByte(s, leaf, i, at, len, OFF_COUNT);
    RemoveByte(s, leaf, i, at, len, OFF_COUNT + 1);
    RemoveByte(s, leaf, i, at, len, OFF_HEAP);
    RemoveByte(s, leaf, i, at, len, OFF_HEAP + 1);
  }

  lemma RemoveOffset(s: seq<byte>, leaf: bool, i: nat, at: nat, len: nat, j: nat)
    requires |s| == PAGE_SIZE && i < Count(s) && Header(leaf) + 2 * Count(s) <= Heap(s) <= at && at + len <= PAGE_SIZE && j + 1 < Count(s)
    ensures |RemovePage(s, leaf, i, at, len)| == PAGE_SIZE
    ensures U16(RemovePage(s, leaf, i, at, len), Header(leaf) + 2 * j) == U16(s, Header(leaf) + 2 * if j < i then j else j + 1)
  {
    hide RemovePage;
    RemoveByte(s, leaf, i, at, len, Header(leaf) + 2 * j);
    RemoveByte(s, leaf, i, at, len, Header(leaf) + 2 * j + 1);
  }

  lemma RemoveRange(s: seq<byte>, leaf: bool, i: nat, at: nat, len: nat, lo: nat, hi: nat)
    requires |s| == PAGE_SIZE && i < Count(s) && Header(leaf) + 2 * Count(s) <= Heap(s) <= at && at + len <= PAGE_SIZE
    requires Heap(s) <= lo <= hi <= PAGE_SIZE && (hi <= at || at + len <= lo)
    ensures |RemovePage(s, leaf, i, at, len)| == PAGE_SIZE
    ensures RemovePage(s, leaf, i, at, len)[lo..hi] == s[lo..hi]
  {
    hide RemovePage;
    RemoveByte(s, leaf, i, at, len, 0);
    var s' := RemovePage(s, leaf, i, at, len);
    forall k | lo <= k < hi ensures s'[k] == s[k] { RemoveByte(s, leaf, i, at, len, k); }
  }

  lemma RemoveCell(s: seq<byte>, leaf: bool, es: Cells, offs: seq<nat>, i: nat, j: nat)
    requires Holds(s, leaf, es, offs) && i < |es| && CellOk(s, leaf, es, offs, i) && j < |es| - 1
    ensures |RemovePage(s, leaf, i, offs[i], |es[i]|)| == PAGE_SIZE
    ensures CellOk(RemovePage(s, leaf, i, offs[i], |es[i]|), leaf, RemoveAt(es, i), RemoveAt(offs, i), j)
  {
    hide RemovePage, LenAt, AllApart;
    var k := if j < i then j else j + 1;
    assert RemoveAt(es, i)[j] == es[k] && RemoveAt(offs, i)[j] == offs[k];
    assert CellOk(s, leaf, es, offs, k);
    OneApart(es, offs, i, k);
    RemoveFields(s, leaf, i, offs[i], |es[i]|);
    RemoveOffset(s, leaf, i, offs[i], |es[i]|, j);
    RemoveRange(s, leaf, i, offs[i], |es[i]|, offs[k], offs[k] + |es[k]|);
  }

  /** The entry is gone, and the others are where they were. */
  lemma RemoveHolds(s: seq<byte>, leaf: bool, es: Cells, offs: seq<nat>, i: nat)
    requires Holds(s, leaf, es, offs) && i < |es| && CellOk(s, leaf, es, offs, i)
    ensures Holds(RemovePage(s, leaf, i, offs[i], |es[i]|), leaf, RemoveAt(es, i), RemoveAt(offs, i))
  {
    hide RemovePage, LenAt;
    var at, len := offs[i], |es[i]|;
    var s' := RemovePage(s, leaf, i, at, len);
    var es', offs' := RemoveAt(es, i), RemoveAt(offs, i);
    RemoveFields(s, leaf, i, at, len);
    forall j: nat | j < |es'|
      ensures Header(leaf) + 2 * |es'| <= PAGE_SIZE && CellOk(s', leaf, es', offs', j)
    {
      RemoveCell(s, leaf, es, offs, i, j);
    }
    RemoveApart(es, offs, i);
  }

  lemma OneApart(es: Cells, offs: seq<nat>, i: nat, k: nat)
    requires |es| == |offs| && AllApart(es, offs) && i < |es| && k < |es| && i != k
    ensures Apart(offs[i], es[i], offs[k], es[k])
  {
    assert i < k ==> Apart(offs[i], es[i], offs[k], es[k]);
    assert k < i ==> Apart(offs[k], es[k], offs[i], es[i]);
  }

  lemma RemoveApart(es: Cells, offs: seq<nat>, i: nat)
    requires |es| == |offs| && AllApart(es, offs) && i < |es|
    ensures AllApart(RemoveAt(es, i), RemoveAt(offs, i))
  {
    var es', offs' := RemoveAt(es, i), RemoveAt(offs, i);
    forall a, b | 0 <= a < b < |es'| ensures Apart(offs'[a], es'[a], offs'[b], es'[b]) {
      var a', b' := if a < i then a else a + 1, if b < i then b else b + 1;
      assert offs'[a] == offs[a'] && offs'[b] == offs[b'] && es'[a] == es[a'] && es'[b] == es[b'];
    }
  }

  // How much room entries take -------------------------------------------------------------------

  function Total(es: Cells): nat {
    if es == [] then 0 else Total(es[..|es| - 1]) + |es[|es| - 1]|
  }

  /** The places `at..at + len`. */
  ghost function Span(at: nat, len: nat): (r: set<nat>)
    ensures |r| == len
    ensures forall k: nat {:trigger k in r} :: k in r <==> at <= k < at + len
    decreases len
  {
    if len == 0 then {} else Span(at, len - 1) + {at + len - 1}
  }

  /** The places the entries take. */
  ghost function Used(es: Cells, offs: seq<nat>): set<nat>
    requires |es| == |offs|
    decreases |es|
  {
    if es == [] then {} else Used(es[..|es| - 1], offs[..|es| - 1]) + Span(offs[|es| - 1], |es[|es| - 1]|)
  }

  /** A place away from every entry is not used. */
  lemma {:induction false} NotUsed(es: Cells, offs: seq<nat>, k: nat)
    requires |es| == |offs| && forall i {:trigger offs[i]} :: 0 <= i < |es| ==> !(offs[i] <= k < offs[i] + |es[i]|)
    ensures k !in Used(es, offs)
    decreases |es|
  {
    if es != [] {
      var n := |es| - 1;
      assert forall i {:trigger offs[..n][i]} :: 0 <= i < n ==> offs[..n][i] == offs[i] && es[..n][i] == es[i];
      NotUsed(es[..n], offs[..n], k);
    }
  }

  lemma LastApart(es: Cells, offs: seq<nat>, k: nat)
    requires |es| == |offs| && AllApart(es, offs) && es != []
    ensures AllApart(es[..|es| - 1], offs[..|es| - 1])
    ensures k in Span(offs[|es| - 1], |es[|es| - 1]|) ==> k !in Used(es[..|es| - 1], offs[..|es| - 1])
  {
    var n := |es| - 1;
    assert forall i {:trigger offs[..n][i]} :: 0 <= i < n ==> offs[..n][i] == offs[i] && es[..n][i] == es[i];
    if k in Span(offs[n], |es[n]|) {
      forall i | 0 <= i < n ensures !(offs[i] <= k < offs[i] + |es[i]|) {
        assert Apart(offs[i], es[i], offs[n], es[n]);
      }
      NotUsed(es[..n], offs[..n], k);
    }
  }

  lemma {:induction false} UsedSize(es: Cells, offs: seq<nat>)
    requires |es| == |offs| && AllApart(es, offs)
    ensures |Used(es, offs)| == Total(es)
    decreases |es|
  {
    hide AllApart;
    if es != [] {
      var n := |es| - 1;
      var front, last := Used(es[..n], offs[..n]), Span(offs[n], |es[n]|);
      LastApart(es, offs, 0);
      UsedSize(es[..n], offs[..n]);
      forall k: nat | k in last ensures k !in front { LastApart(es, offs, k); }
      assert front !! last;
    }
  }

  /** Entries that do not overlap take, together, no more than the room they lie in. */
  lemma {:induction false} RoomFor(es: Cells, offs: seq<nat>, lo: nat, hi: nat)
    requires |es| == |offs| && AllApart(es, offs) && lo <= hi
    requires forall i {:trigger offs[i]} :: 0 <= i < |es| ==> lo <= offs[i] && offs[i] + |es[i]| <= hi
    ensures Total(es) <= hi - lo
  {
    hide AllApart;
    UsedSize(es, offs);
    forall k: nat | k !in Span(lo, hi - lo) ensures k !in Used(es, offs) { NotUsed(es, offs, k); }
    assert Used(es, offs) <= Span(lo, hi - lo);
    SubsetSize(Used(es, offs), Span(lo, hi - lo));
  }

  lemma {:induction false} SubsetSize(a: set<nat>, b: set<nat>)
    requires a <= b
    ensures |a| <= |b|
    decreases a
  {
    if a != {} {
      var x :| x in a;
      SubsetSize(a - {x}, b - {x});
    }
  }

  lemma {:induction false} HoldsTotal(s: seq<byte>, leaf: bool, es: Cells, offs: seq<nat>)
    requires Holds(s, leaf, es, offs)
    ensures Total(es) <= PAGE_SIZE - Heap(s)
  {
    hide Sized;
    forall i | 0 <= i < |es| ensures Heap(s) <= offs[i] && offs[i] + |es[i]| <= PAGE_SIZE { assert CellOk(s, leaf, es, offs, i); }
    RoomFor(es, offs, Heap(s), PAGE_SIZE);
  }

  // Overwriting ----------------------------------------------------------------------------------

  /** An entry of the same length takes the other's place. */
  lemma OverwriteHolds(s: seq<byte>, leaf: bool, es: Cells, offs: seq<nat>, i: nat, entry: seq<byte>)
    requires Holds(s, leaf, es, offs) && i < |es| && CellOk(s, leaf, es, offs, i) && Sized(entry, leaf) && |entry| == |es[i]|
    ensures Holds(Splice(s, offs[i], entry), leaf, es[i := entry], offs)
  {
    hide LenAt;
    var s', es' := Splice(s, offs[i], entry), es[i := entry];
    Apart16(s, offs[i], entry, OFF_COUNT);
    Apart16(s, offs[i], entry, OFF_HEAP);
    forall j: nat | j < |es'| ensures CellOk(s', leaf, es', offs, j) {
      assert CellOk(s, leaf, es, offs, j);
      Apart16(s, offs[i], entry, Header(leaf) + 2 * j);
      if j != i {
        OneApart(es, offs, i, j);
        ApartRange(s, offs[i], entry, offs[j], offs[j] + |es[j]|);
      }
    }
    assert AllApart(es', offs) by {
      forall a, b | 0 <= a < b < |es'| ensures Apart(offs[a], es'[a], offs[b], es'[b]) {
        assert Apart(offs[a], es[a], offs[b], es[b]);
      }
    }
  }
}
