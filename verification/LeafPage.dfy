/** A leaf page of the index: encoded entries on a slotted page stand for the sorted sequence of
    entries, and the in-place operations do to the page what their counterparts do to it. */
module LeafPage {
  import opened Bytes
  import opened Sequences
  import opened KeyOrder
  import opened KeyNode
  import opened KeySplit
  import opened PageBytes
  import SlottedPage
  import PageOps

  predicate Encodable(e: Entry) { |e.pos.key| < 0x1_0000 && |e.value| < 0x1_0000 }

  function EncodeEntry(e: Entry): seq<byte>
    requires Encodable(e)
  {
    Bytes16(|e.pos.key|) + e.pos.key + ToLE(e.pos.row, 8) + Bytes16(|e.value|) + e.value
  }

  function EncodeSep(s: Sep): seq<byte>
    requires |s.pos.key| < 0x1_0000
  {
    Bytes16(|s.pos.key|) + s.pos.key + ToLE(s.pos.row, 8) + ToLE(s.child, 8)
  }

  /** The position of the entry at `at`. */
  function KeyRow(s: seq<byte>, at: nat): Option<Pos> {
    if at + 2 > |s| then None
    else
      var len := U16(s, at);
      if at + 2 + len + 8 > |s| then None
      else
        Widths();
        Some(Pos(s[at + 2..at + 2 + len], FromLE(s[at + 2 + len..at + 2 + len + 8])))
  }

  lemma FiveParts(a: seq<byte>, b: seq<byte>, c: seq<byte>, d: seq<byte>, e: seq<byte>)
    ensures var s, n := a + b + c + d + e, |a| + |b|;
            && s[..|a|] == a && s[|a|..n] == b && s[n..n + |c|] == c
            && s[n + |c|..n + |c| + |d|] == d && s[n + |c| + |d|..] == e
  {
  }

  lemma Read16(s: seq<byte>, at: nat, v: nat)
    requires v < 0x1_0000 && at + 2 <= |s| && s[at..at + 2] == Bytes16(v)
    ensures U16(s, at) == v
  {
    assert s[at..at + 2][0] == s[at] && s[at..at + 2][1] == s[at + 1];
  }

  lemma EntryDecodes(e: Entry)
    requires Encodable(e)
    ensures |EncodeEntry(e)| == EntrySize(e) && SlottedPage.Sized(EncodeEntry(e), true) && KeyRow(EncodeEntry(e), 0) == Some(e.pos)
    ensures EncodeEntry(e)[12 + |e.pos.key|..] == e.value
  {
    hide ToLE, Bytes16;
    var b, k := EncodeEntry(e), |e.pos.key|;
    Widths();
    FromToLE(e.pos.row, 8);
    FiveParts(Bytes16(k), e.pos.key, ToLE(e.pos.row, 8), Bytes16(|e.value|), e.value);
    Lengths16(k);
    Lengths16(|e.value|);
    assert b[0..2] == Bytes16(k);
    Read16(b, 0, k);
    Read16(b, 10 + k, |e.value|);
  }

  lemma Lengths16(v: nat)
    requires v < 0x1_0000
    ensures |Bytes16(v)| == 2
  {
  }

  lemma SepDecodes(s: Sep)
    requires |s.pos.key| < 0x1_0000
    ensures |EncodeSep(s)| == SepSize(s.pos) && SlottedPage.Sized(EncodeSep(s), false) && KeyRow(EncodeSep(s), 0) == Some(s.pos)
  {
    hide ToLE, Bytes16;
    var b, k := EncodeSep(s), |s.pos.key|;
    Widths();
    FromToLE(s.pos.row, 8);
    Lengths16(k);
    FiveParts(Bytes16(k), s.pos.key, ToLE(s.pos.row, 8), ToLE(s.child, 8), []);
    assert b == b + [];
    Read16(b, 0, k);
  }

  /** A position reads the same wherever its bytes lie. */
  lemma KeyRowLocal(s: seq<byte>, at: nat, e: seq<byte>)
    requires at + |e| <= |s| && s[at..at + |e|] == e && KeyRow(e, 0).Some?
    ensures KeyRow(s, at) == KeyRow(e, 0)
  {
    SubSlice(s, at, e, 0, 2);
    assert U16(s, at) == U16(e, 0) by {
      assert e[0..2][0] == s[at..at + 2][0] && e[0..2][1] == s[at..at + 2][1];
    }
    var len := U16(e, 0);
    SubSlice(s, at, e, 2, 2 + len);
    SubSlice(s, at, e, 2 + len, 2 + len + 8);
  }

  lemma SubSlice(s: seq<byte>, at: nat, e: seq<byte>, a: nat, b: nat)
    requires at + |e| <= |s| && s[at..at + |e|] == e && a <= b <= |e|
    ensures s[at + a..at + b] == e[a..b]
  {
    forall k | 0 <= k < b - a ensures s[at + a..at + b][k] == e[a..b][k] {
      assert s[at..at + |e|][a + k] == s[at + a + k];
    }
  }

  ghost predicate AllEncodable(es: seq<Entry>) {
    forall i {:trigger es[i]} :: 0 <= i < |es| ==> Encodable(es[i])
  }

  ghost function Encoded(es: seq<Entry>): SlottedPage.Cells
    requires AllEncodable(es)
  {
    seq(|es|, i requires 0 <= i < |es| => EncodeEntry(es[i]))
  }

  /** The page is a leaf that holds the entries `es`. */
  ghost predicate HoldsLeaf(s: seq<byte>, es: seq<Entry>, offs: seq<nat>) {
    AllEncodable(es) && SlottedPage.Holds(s, true, Encoded(es), offs) && s[0] == PageOps.KIND_LEAF
  }

  lemma {:induction false} EncodedTotal(es: seq<Entry>)
    requires AllEncodable(es)
    ensures SlottedPage.Total(Encoded(es)) == Sum(EntrySizes(es))
    decreases |es|
  {
    if es != [] {
      var n := |es| - 1;
      EncodedTotal(es[..n]);
      EntryDecodes(es[n]);
      assert Encoded(es)[..n] == Encoded(es[..n]);
      assert EntrySizes(es)[..n] == EntrySizes(es[..n]);
    }
  }

  /** The position of the `i`-th entry, read off the page. */
  lemma PosOnPage(s: seq<byte>, es: seq<Entry>, offs: seq<nat>, i: nat)
    requires HoldsLeaf(s, es, offs) && i < |es|
    ensures LEAF_HEADER + 2 * i + 2 <= PAGE_SIZE == |s|
    ensures KeyRow(s, U16(s, LEAF_HEADER + 2 * i)) == Some(es[i].pos)
    ensures SlottedPage.LenAt(s, true, U16(s, LEAF_HEADER + 2 * i)) == Some(EntrySize(es[i])) && U16(s, LEAF_HEADER + 2 * i) == offs[i]
    ensures |offs| == |es| && offs[i] + EntrySize(es[i]) <= PAGE_SIZE && SlottedPage.Heap(s) <= offs[i]
    ensures s[offs[i]..offs[i] + EntrySize(es[i])] == EncodeEntry(es[i])
  {
    hide SlottedPage.Holds, SlottedPage.LenAt, KeyRow, EncodeEntry, SlottedPage.Sized;
    PageOps.HoldsFields(s, true, Encoded(es), offs);
    PageOps.CellAt(s, true, Encoded(es), offs, i);
    EntryDecodes(es[i]);
    KeyRowLocal(s, offs[i], EncodeEntry(es[i]));
  }

  /** Binary search over the offsets. */
  method SearchLeaf(page: array<byte>, p: Pos, ghost es: seq<Entry>, ghost offs: seq<nat>) returns (found: bool, i: nat)
    requires page.Length == PAGE_SIZE && HoldsLeaf(page[..], es, offs) && Sorted(es)
    ensures IsPlace(Positions(es), p, i) && i <= |es|
    ensures found <==> i < |es| && es[i].pos == p
  {
    hide HoldsLeaf, KeyRow, SlottedPage.LenAt, EncodeEntry, Less;
    LeafCount(page[..], es, offs);
    var lo, hi := 0, U16(page[..], SlottedPage.OFF_COUNT);
    while lo < hi
      invariant 0 <= lo <= hi <= |es|
      invariant forall j {:trigger es[j]} :: 0 <= j < lo ==> Less(es[j].pos, p)
      invariant forall j {:trigger es[j]} :: hi <= j < |es| ==> Less(p, es[j].pos)
    {
      var mid := lo + (hi - lo) / 2;
      PosOnPage(page[..], es, offs, mid);
      var q := KeyRow(page[..], U16(page[..], LEAF_HEADER + 2 * mid)).value;
      Total(q, p);
      if Less(q, p) {
        forall j | 0 <= j < mid ensures Less(es[j].pos, p) { Trans(es[j].pos, q, p); }
        lo := mid + 1;
      } else if Less(p, q) {
        forall j | mid < j < |es| ensures Less(p, es[j].pos) { Trans(p, q, es[j].pos); }
        hi := mid;
      } else {
        found, i := true, mid;
        forall j | mid <= j < |es| ensures !Less(es[j].pos, p) { Total(es[mid].pos, es[j].pos); }
        return;
      }
    }
    found, i := false, lo;
    forall j | lo <= j < |es| ensures !Less(es[j].pos, p) && es[j].pos != p { Total(p, es[j].pos); }
  }

  lemma LeafCount(s: seq<byte>, es: seq<Entry>, offs: seq<nat>)
    requires HoldsLeaf(s, es, offs)
    ensures |s| == PAGE_SIZE && SlottedPage.Count(s) == |es| == |offs| && LEAF_HEADER + 2 * |es| <= PAGE_SIZE
  {
    PageOps.HoldsFields(s, true, Encoded(es), offs);
  }

  lemma EncodedInsert(es: seq<Entry>, i: nat, e: Entry)
    requires AllEncodable(es) && Encodable(e) && i <= |es|
    ensures AllEncodable(InsertAt(es, i, e)) && Encoded(InsertAt(es, i, e)) == InsertAt(Encoded(es), i, EncodeEntry(e))
  {
    hide EncodeEntry;
    var out := InsertAt(es, i, e);
    forall k | 0 <= k < |out| ensures Encodable(out[k]) { assert out[k] == e || out[k] in es; }
    var a, b := Encoded(out), InsertAt(Encoded(es), i, EncodeEntry(e));
    forall k | 0 <= k < |out| ensures a[k] == b[k] {
      assert out[k] == if k < i then es[k] else if k == i then e else es[k - 1];
    }
  }

  lemma EncodedRemove(es: seq<Entry>, i: nat)
    requires AllEncodable(es) && i < |es|
    ensures AllEncodable(RemoveAt(es, i)) && Encoded(RemoveAt(es, i)) == RemoveAt(Encoded(es), i)
  {
  }

  /** Whether an entry fits, in terms of what is on the page. */
  lemma FitsOnPage(es: seq<Entry>, i: nat, e: Entry)
    requires AllEncodable(es) && Encodable(e) && i <= |es|
    ensures LeafFits(InsertAt(es, i, e)) <==>
              LEAF_HEADER + 2 * (|es| + 1) + SlottedPage.Total(Encoded(es)) + |EncodeEntry(e)| <= PAGE_SIZE
  {
    hide Sum, EncodeEntry;
    EncodedTotal(es);
    EntryDecodes(e);
    var a, b := EntrySizes(es[..i]), EntrySizes(es[i..]);
    assert EntrySizes(es) == a + b;
    assert EntrySizes(InsertAt(es, i, e)) == a + [EntrySize(e)] + b;
    SumJoin(a, b);
    SumJoin(a + [EntrySize(e)], b);
    SumJoin(a, [EntrySize(e)]);
    SumOne(EntrySize(e));
  }

  /** Add an entry not there yet. */
  method AddInPlace(page: array<byte>, i: nat, e: Entry, ghost es: seq<Entry>, ghost offs: seq<nat>) returns (ok: bool, ghost offs': seq<nat>)
    requires page.Length == PAGE_SIZE && HoldsLeaf(page[..], es, offs) && Encodable(e) && i <= |es|
    modifies page
    ensures ok <==> LeafFits(InsertAt(es, i, e))
    ensures ok ==> HoldsLeaf(page[..], InsertAt(es, i, e), offs') && PageOps.Head(page[..], true) == old(PageOps.Head(page[..], true))
    ensures !ok ==> page[..] == old(page[..])
  {
    hide SlottedPage.Holds, EncodeEntry, LeafFits, Encoded, SlottedPage.Sized;
    EntryDecodes(e);
    EncodedInsert(es, i, e);
    FitsOnPage(es, i, e);
    EncodedLength(es);
    ok, offs' := PageOps.InsertInPlace(page, true, i, EncodeEntry(e), Encoded(es), offs);
    HeadKind(page[..]);
  }

  lemma EncodedLength(es: seq<Entry>)
    requires AllEncodable(es)
    ensures |Encoded(es)| == |es|
  {
  }

  lemma HeadKind(s: seq<byte>)
    requires |s| == PAGE_SIZE
    ensures PageOps.Head(s, true)[0] == s[0]
  {
  }

  /** Put an entry into the leaf in place: true when it fits, and the page then holds the sequence
      with the entry put in; false when the leaf must split, and the page is then untouched. */
  method PutInPlace(page: array<byte>, e: Entry, ghost es: seq<Entry>, ghost offs: seq<nat>) returns (ok: bool, ghost i: nat, ghost offs': seq<nat>)
    requires page.Length == PAGE_SIZE && HoldsLeaf(page[..], es, offs) && Sorted(es) && Encodable(e)
    modifies page
    ensures i <= |es| && IsPlace(Positions(es), e.pos, i)
    ensures ok <==> LeafFits(PutAt(es, i, e))
    ensures ok ==> HoldsLeaf(page[..], PutAt(es, i, e), offs') && PageOps.Head(page[..], true) == old(PageOps.Head(page[..], true))
    ensures !ok ==> page[..] == old(page[..])
  {
    hide HoldsLeaf, LeafFits, IsPlace, SlottedPage.LenAt, EncodeEntry, KeyRow, PageOps.Head, Sorted;
    var found, at := SearchLeaf(page, e.pos, es, offs);
    i, offs' := at, offs;
    if !found {
      ok, offs' := AddInPlace(page, at, e, es, offs);
      return;
    }
    PosOnPage(page[..], es, offs, at);
    EntryDecodes(e);
    var off := U16(page[..], LEAF_HEADER + 2 * at);
    var size := SlottedPage.LenAt(page[..], true, off).value;
    if size == |EncodeEntry(e)| {
      Overwrite(page[..], es, offs, at, e);
      WriteBytes(page, off, EncodeEntry(e));
      return true, i, offs;
    }
    ReplaceFits(page[..], es, offs, at, e);
    var live := LeafBytes(page, es, offs);
    if LEAF_HEADER + 2 * U16(page[..], SlottedPage.OFF_COUNT) + live - size + |EncodeEntry(e)| > PAGE_SIZE {
      return false, i, offs;
    }
    offs' := DropInPlace(page, at, es, offs);
    ReplaceIs(es, at, e);
    ok, offs' := AddInPlace(page, at, e, RemoveAt(es, at), offs');
  }

  /** An entry of the same size is written over the old one, and fits as it did. */
  lemma Overwrite(s: seq<byte>, es: seq<Entry>, offs: seq<nat>, i: nat, e: Entry)
    requires HoldsLeaf(s, es, offs) && i < |es| && es[i].pos == e.pos && Encodable(e) && EntrySize(e) == EntrySize(es[i])
    requires |offs| == |es| && offs[i] + EntrySize(e) <= PAGE_SIZE == |s| && |EncodeEntry(e)| == EntrySize(e)
    ensures HoldsLeaf(Splice(s, offs[i], EncodeEntry(e)), PutAt(es, i, e), offs) && LeafFits(PutAt(es, i, e))
    ensures PageOps.Head(Splice(s, offs[i], EncodeEntry(e)), true) == PageOps.Head(s, true)
  {
    hide EncodeEntry, Sum, SlottedPage.LenAt, SlottedPage.AllApart;
    var cells := Encoded(es);
    EntryDecodes(e);
    EntryDecodes(es[i]);
    assert SlottedPage.CellOk(s, true, cells, offs, i);
    SlottedPage.OverwriteHolds(s, true, cells, offs, i, EncodeEntry(e));
    assert Encoded(PutAt(es, i, e)) == cells[i := EncodeEntry(e)];
    SlottedPage.HoldsTotal(s, true, cells, offs);
    EncodedTotal(es);
    assert EntrySizes(PutAt(es, i, e)) == EntrySizes(es);
    ApartRange(s, offs[i], EncodeEntry(e), 5, LEAF_HEADER);
  }

  /** Remove the `i`-th entry. */
  method DropInPlace(page: array<byte>, i: nat, ghost es: seq<Entry>, ghost offs: seq<nat>) returns (ghost offs': seq<nat>)
    requires page.Length == PAGE_SIZE && HoldsLeaf(page[..], es, offs) && i < |es|
    modifies page
    ensures HoldsLeaf(page[..], RemoveAt(es, i), offs') && PageOps.Head(page[..], true) == old(PageOps.Head(page[..], true))
  {
    hide SlottedPage.Holds, EncodeEntry, Encoded;
    EncodedRemove(es, i);
    EncodedLength(es);
    HoldsOffs(page[..], es, offs);
    PageOps.RemoveEntry(page, true, i, Encoded(es), offs);
    offs' := RemoveAt(offs, i);
    HeadKind(page[..]);
  }

  lemma HoldsOffs(s: seq<byte>, es: seq<Entry>, offs: seq<nat>)
    requires HoldsLeaf(s, es, offs)
    ensures |offs| == |es| && |s| == PAGE_SIZE
  {
    LeafCount(s, es, offs);
  }

  method LeafBytes(page: array<byte>, ghost es: seq<Entry>, ghost offs: seq<nat>) returns (total: nat)
    requires page.Length == PAGE_SIZE && HoldsLeaf(page[..], es, offs)
    ensures total == Sum(EntrySizes(es))
  {
    hide SlottedPage.Holds, EncodeEntry, Encoded, Sum;
    EncodedTotal(es);
    total := PageOps.LiveBytes(page, true, Encoded(es), offs);
  }

  lemma ReplaceIs(es: seq<Entry>, i: nat, e: Entry)
    requires i < |es| && es[i].pos == e.pos
    ensures InsertAt(RemoveAt(es, i), i, e) == PutAt(es, i, e)
  {
  }

  lemma ReplaceFits(s: seq<byte>, es: seq<Entry>, offs: seq<nat>, i: nat, e: Entry)
    requires HoldsLeaf(s, es, offs) && i < |es| && es[i].pos == e.pos
    ensures |s| == PAGE_SIZE && SlottedPage.Count(s) == |es|
    ensures LeafFits(PutAt(es, i, e)) <==> LEAF_HEADER + 2 * |es| + Sum(EntrySizes(es)) - EntrySize(es[i]) + EntrySize(e) <= PAGE_SIZE
  {
    hide SlottedPage.Holds, EncodeEntry, Encoded, Sum;
    LeafCount(s, es, offs);
    var out := PutAt(es, i, e);
    var a, b := EntrySizes(es[..i]), EntrySizes(es[i + 1..]);
    assert EntrySizes(es) == a + [EntrySize(es[i])] + b;
    assert EntrySizes(out) == a + [EntrySize(e)] + b;
    SumJoin(a + [EntrySize(es[i])], b);
    SumJoin(a, [EntrySize(es[i])]);
    SumOne(EntrySize(es[i]));
    SumJoin(a + [EntrySize(e)], b);
    SumJoin(a, [EntrySize(e)]);
    SumOne(EntrySize(e));
  }

  /** What removing a position from a leaf did. */
  datatype Removal = Absent | Kept | Emptied

  /** Remove a position from the leaf in place; a leaf without it is untouched. */
  method DeleteInPlace(page: array<byte>, p: Pos, ghost es: seq<Entry>, ghost offs: seq<nat>)
    returns (r: Removal, ghost i: nat, ghost offs': seq<nat>)
    requires page.Length == PAGE_SIZE && HoldsLeaf(page[..], es, offs) && Sorted(es)
    modifies page
    ensures IsPlace(Positions(es), p, i) && (r == Absent <==> !(i < |es| && es[i].pos == p))
    ensures r == Absent ==> page[..] == old(page[..])
    ensures r != Absent ==> HoldsLeaf(page[..], RemoveAt(es, i), offs') && (r == Emptied <==> |es| == 1)
    ensures PageOps.Head(page[..], true) == old(PageOps.Head(page[..], true))
  {
    hide HoldsLeaf, IsPlace, PageOps.Head, Sorted;
    var found, at := SearchLeaf(page, p, es, offs);
    i, offs' := at, offs;
    if !found { return Absent, i, offs; }
    offs' := DropInPlace(page, at, es, offs);
    LeafCount(page[..], RemoveAt(es, at), offs');
    r := if U16(page[..], SlottedPage.OFF_COUNT) == 0 then Emptied else Kept;
  }

  // Separators -----------------------------------------------------------------------------------

  ghost predicate AllSepsEncodable(seps: seq<Sep>) {
    forall i {:trigger seps[i]} :: 0 <= i < |seps| ==> |seps[i].pos.key| < 0x1_0000
  }

  ghost function EncodedSeps(seps: seq<Sep>): SlottedPage.Cells
    requires AllSepsEncodable(seps)
  {
    seq(|seps|, i requires 0 <= i < |seps| => EncodeSep(seps[i]))
  }

  /** An interior page has room for its separators exactly when their positions fit. */
  lemma {:induction false} SepsTotal(seps: seq<Sep>)
    requires AllSepsEncodable(seps)
    ensures SlottedPage.Total(EncodedSeps(seps)) == Sum(SepSizes(SepPositions(seps)))
    decreases |seps|
  {
    if seps != [] {
      var n := |seps| - 1;
      SepsTotal(seps[..n]);
      SepDecodes(seps[n]);
      assert EncodedSeps(seps)[..n] == EncodedSeps(seps[..n]);
      assert SepSizes(SepPositions(seps))[..n] == SepSizes(SepPositions(seps[..n]));
    }
  }

  /** A separator put in an interior page in place, or the page untouched when it does not fit. */
  method SepInPlace(page: array<byte>, i: nat, sep: Sep, ghost seps: seq<Sep>, ghost offs: seq<nat>) returns (ok: bool, ghost offs': seq<nat>)
    requires page.Length == PAGE_SIZE && page[0] == PageOps.KIND_INTERIOR && i <= |seps| && |sep.pos.key| < 0x1_0000
    requires AllSepsEncodable(seps) && SlottedPage.Holds(page[..], false, EncodedSeps(seps), offs)
    modifies page
    ensures ok <==> InteriorFits(SepPositions(InsertAt(seps, i, sep)))
    ensures ok ==> AllSepsEncodable(InsertAt(seps, i, sep)) && SlottedPage.Holds(page[..], false, EncodedSeps(InsertAt(seps, i, sep)), offs')
    ensures !ok ==> page[..] == old(page[..])
  {
    hide SlottedPage.Holds, EncodeSep, SlottedPage.Sized, Sum;
    SepDecodes(sep);
    SepsTotal(seps);
    SepRoom(seps, i, sep);
    ok, offs' := PageOps.InsertInPlace(page, false, i, EncodeSep(sep), EncodedSeps(seps), offs);
  }

  lemma SepRoom(seps: seq<Sep>, i: nat, sep: Sep)
    requires AllSepsEncodable(seps) && |sep.pos.key| < 0x1_0000 && i <= |seps|
    ensures AllSepsEncodable(InsertAt(seps, i, sep)) && EncodedSeps(InsertAt(seps, i, sep)) == InsertAt(EncodedSeps(seps), i, EncodeSep(sep))
    ensures Sum(SepSizes(SepPositions(InsertAt(seps, i, sep)))) == Sum(SepSizes(SepPositions(seps))) + SepSize(sep.pos)
    ensures |SepPositions(InsertAt(seps, i, sep))| == |seps| + 1
  {
    hide Sum, EncodeSep;
    var out := InsertAt(seps, i, sep);
    forall k | 0 <= k < |out| ensures |out[k].pos.key| < 0x1_0000 { assert out[k] == sep || out[k] in seps; }
    var a, b := SepSizes(SepPositions(seps[..i])), SepSizes(SepPositions(seps[i..]));
    assert SepSizes(SepPositions(seps)) == a + b;
    assert SepSizes(SepPositions(out)) == a + [SepSize(sep.pos)] + b;
    SumJoin(a, b);
    SumJoin(a + [SepSize(sep.pos)], b);
    SumJoin(a, [SepSize(sep.pos)]);
    SumOne(SepSize(sep.pos));
  }

  // The format, byte by byte ---------------------------------------------------------------------

  lemma Field16(s: seq<byte>, at: nat)
    requires at + 2 <= |s|
    ensures FromLE(s[at..at + 2]) == U16(s, at)
  {
    var b := s[at..at + 2];
    assert b[1..] == [b[1]] && [b[1]][1..] == [];
    assert FromLE([b[1]]) == b[1];
  }

  /** The fields of a leaf entry at `at`: key length, key, row, value length and value. */
  ghost predicate EntryAtBytes(s: seq<byte>, at: nat, e: Entry) {
    var k := |e.pos.key|;
    && at + 12 + k + |e.value| <= |s|
    && FromLE(s[at..at + 2]) == k && s[at + 2..at + 2 + k] == e.pos.key
    && FromLE(s[at + 2 + k..at + 10 + k]) == e.pos.row
    && FromLE(s[at + 10 + k..at + 12 + k]) == |e.value|
    && s[at + 12 + k..at + 12 + k + |e.value|] == e.value
  }

  lemma EntryBytes(e: Entry)
    requires Encodable(e)
    ensures |EncodeEntry(e)| == 12 + |e.pos.key| + |e.value| && EntryAtBytes(EncodeEntry(e), 0, e)
  {
    hide ToLE, Bytes16;
    var b, k := EncodeEntry(e), |e.pos.key|;
    EntryDecodes(e);
    Widths();
    FromToLE(e.pos.row, 8);
    FiveParts(Bytes16(k), e.pos.key, ToLE(e.pos.row, 8), Bytes16(|e.value|), e.value);
    Lengths16(k);
    Lengths16(|e.value|);
    Read16(b, 0, k);
    Read16(b, 10 + k, |e.value|);
    Field16(b, 0);
    Field16(b, 10 + k);
    assert b[12 + k..12 + k + |e.value|] == b[12 + k..];
  }

  lemma EntryMoved(s: seq<byte>, at: nat, b: seq<byte>, e: Entry)
    requires at + |b| <= |s| && s[at..at + |b|] == b && EntryAtBytes(b, 0, e)
    ensures EntryAtBytes(s, at, e)
  {
    hide FromLE;
    var k := |e.pos.key|;
    SubSlice(s, at, b, 0, 2);
    SubSlice(s, at, b, 2, 2 + k);
    SubSlice(s, at, b, 2 + k, 10 + k);
    SubSlice(s, at, b, 10 + k, 12 + k);
    SubSlice(s, at, b, 12 + k, 12 + k + |e.value|);
  }

  /** A leaf page as its documented layout has it: kind 3, the count, the heap mark, and from byte 21
      on the two-byte offsets of the entries, each entry field by field. */
  lemma LeafLayout(s: seq<byte>, es: seq<Entry>, offs: seq<nat>, i: nat)
    requires HoldsLeaf(s, es, offs) && i < |es|
    ensures |s| == 8192 && s[0] == 3 && FromLE(s[1..3]) == |es| && 21 + 2 * |es| <= FromLE(s[3..5]) <= 8192
    ensures var at := FromLE(s[21 + 2 * i..23 + 2 * i]);
            FromLE(s[3..5]) <= at && EntryAtBytes(s, at, es[i])
  {
    hide FromLE, EntryAtBytes, EncodeEntry;
    PageOps.CellAt(s, true, Encoded(es), offs, i);
    Field16(s, 1);
    Field16(s, 3);
    Field16(s, 21 + 2 * i);
    EntryBytes(es[i]);
    EntryMoved(s, offs[i], EncodeEntry(es[i]), es[i]);
  }

  /** The fields of an interior entry at `at`: key length, key, row and child. */
  ghost predicate SepAtBytes(s: seq<byte>, at: nat, x: Sep) {
    var k := |x.pos.key|;
    && at + 18 + k <= |s|
    && FromLE(s[at..at + 2]) == k && s[at + 2..at + 2 + k] == x.pos.key
    && FromLE(s[at + 2 + k..at + 10 + k]) == x.pos.row
    && s[at + 10 + k..at + 18 + k] == ToLE(x.child, 8)
  }

  lemma SepBytes(x: Sep)
    requires |x.pos.key| < 0x1_0000
    ensures |EncodeSep(x)| == 18 + |x.pos.key| && SepAtBytes(EncodeSep(x), 0, x)
  {
    hide ToLE, Bytes16;
    var b, k := EncodeSep(x), |x.pos.key|;
    Widths();
    FromToLE(x.pos.row, 8);
    Lengths16(k);
    FiveParts(Bytes16(k), x.pos.key, ToLE(x.pos.row, 8), ToLE(x.child, 8), []);
    assert b == b + [];
    Read16(b, 0, k);
    Field16(b, 0);
  }

  lemma SepMoved(s: seq<byte>, at: nat, b: seq<byte>, x: Sep)
    requires at + |b| <= |s| && s[at..at + |b|] == b && SepAtBytes(b, 0, x)
    ensures SepAtBytes(s, at, x)
  {
    hide FromLE, ToLE;
    var k := |x.pos.key|;
    SubSlice(s, at, b, 0, 2);
    SubSlice(s, at, b, 2, 2 + k);
    SubSlice(s, at, b, 2 + k, 10 + k);
    SubSlice(s, at, b, 10 + k, 18 + k);
  }

  /** An interior page likewise, its offsets from byte 13 on. */
  lemma InteriorLayout(s: seq<byte>, seps: seq<Sep>, offs: seq<nat>, i: nat)
    requires AllSepsEncodable(seps) && SlottedPage.Holds(s, false, EncodedSeps(seps), offs) && i < |seps|
    ensures |s| == 8192 && FromLE(s[1..3]) == |seps| && 13 + 2 * |seps| <= FromLE(s[3..5]) <= 8192
    ensures var at := FromLE(s[13 + 2 * i..15 + 2 * i]);
            FromLE(s[3..5]) <= at && SepAtBytes(s, at, seps[i])
  {
    hide FromLE, SepAtBytes, EncodeSep;
    PageOps.CellAt(s, false, EncodedSeps(seps), offs, i);
    Field16(s, 1);
    Field16(s, 3);
    Field16(s, 13 + 2 * i);
    SepBytes(seps[i]);
    SepMoved(s, offs[i], EncodeSep(seps[i]), seps[i]);
  }
}
