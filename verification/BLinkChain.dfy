/** Overflow chains: values too large for a leaf entry, spread over linked pages. */
module BLinkChain {
  import opened Bytes
  import opened Distinctness
  import opened BLinkNode
  import opened BLinkInvariant
  import opened BLinkReader
  import opened BLinkSplit

  /** The largest value a chain may hold. */
  const MAX_CHAINED: nat := 256 * 1024 * 1024

  /** How many chain pages a value of `total` bytes takes. */
  function ChainLen(total: nat): nat {
    var chained := if total <= OVERFLOW_INLINE_PREFIX then 0 else total - OVERFLOW_INLINE_PREFIX;
    var pages := (chained + OVERFLOW_PAYLOAD - 1) / OVERFLOW_PAYLOAD;
    if pages == 0 then 1 else pages
  }

  /** `bytes` cut into page-sized pieces. */
  function Pieces(bytes: seq<byte>): seq<seq<byte>> {
    if bytes == [] then []
    else if |bytes| <= OVERFLOW_PAYLOAD then [bytes]
    else [bytes[..OVERFLOW_PAYLOAD]] + Pieces(bytes[OVERFLOW_PAYLOAD..])
  }

  function Join(pieces: seq<seq<byte>>): seq<byte> {
    if pieces == [] then [] else pieces[0] + Join(pieces[1..])
  }

  /** The pieces give the bytes back, each fits a page, and their number is what the stub's length
      promises. */
  lemma {:induction false} PiecesJoin(bytes: seq<byte>)
    ensures Join(Pieces(bytes)) == bytes
    ensures forall i :: 0 <= i < |Pieces(bytes)| ==> 0 < |Pieces(bytes)[i]| <= OVERFLOW_PAYLOAD
    ensures bytes != [] ==> |Pieces(bytes)| == ChainLen(OVERFLOW_INLINE_PREFIX + |bytes|)
    decreases |bytes|
  {
    if bytes == [] {
    } else if |bytes| <= OVERFLOW_PAYLOAD {
      assert [bytes][1..] == [];
    } else {
      var rest := bytes[OVERFLOW_PAYLOAD..];
      PiecesJoin(rest);
      assert Pieces(bytes)[1..] == Pieces(rest);
    }
  }

  // --- chains on pages -----------------------------------------------------------------------

  /** The `i`-th page of a chain links to the next one, and is no tree node. */
  ghost predicate ChainPage(s: Snap, ids: seq<PageId>, i: nat)
    requires i < |ids|
  {
    && ids[i] in s.pages && ids[i] !in s.nodes && s.pages[ids[i]].Overflow?
    && s.pages[ids[i]].next == if i + 1 < |ids| then Some(ids[i + 1]) else None
  }

  ghost predicate ChainOk(s: Snap, f: PageId)
    requires f in s.chains
  {
    var ids := s.chains[f];
    && ids != [] && ids[0] == f && Distinct(ids)
    && forall i {:trigger ChainPage(s, ids, i)} :: 0 <= i < |ids| ==> ChainPage(s, ids, i)
  }

  ghost predicate ChainsApart(s: Snap, f: PageId, g: PageId)
    requires f in s.chains && g in s.chains
  {
    f != g ==> forall x :: x in s.chains[f] ==> x !in s.chains[g]
  }

  ghost predicate ChainsOk(s: Snap) {
    && (forall f {:trigger ChainOk(s, f)} :: f in s.chains ==> ChainOk(s, f))
    && (forall f, g {:trigger ChainsApart(s, f, g)} :: f in s.chains && g in s.chains ==> ChainsApart(s, f, g))
  }

  /** The bytes the chain pages `ids` carry. */
  ghost function Payload(pages: map<PageId, Node>, ids: seq<PageId>): seq<byte> {
    if ids == [] then []
    else (if ids[0] in pages && pages[ids[0]].Overflow? then pages[ids[0]].payload else []) + Payload(pages, ids[1..])
  }

  /** The stub of a chained entry names a chain of exactly the length it promises. */
  ghost predicate StubOk(s: Snap, e: Entry) {
    if !e.overflow then |e.stored| <= MAX_TUPLE else
      && DecodeStub(e.stored).Some?
      && var stub := DecodeStub(e.stored).value;
      && MAX_TUPLE < stub.total <= MAX_CHAINED
      && stub.first in s.chains
      && |s.chains[stub.first]| == ChainLen(stub.total)
      && OVERFLOW_INLINE_PREFIX + |Payload(s.pages, s.chains[stub.first])| == stub.total
  }

  /** The value a leaf entry stands for. */
  ghost function ValueOf(s: Snap, e: Entry): seq<byte> {
    if !e.overflow then e.stored
    else match DecodeStub(e.stored)
      case Some(stub) => stub.prefix + (if stub.first in s.chains then Payload(s.pages, s.chains[stub.first]) else [])
      case None => []
  }

  /** The chain a chained entry references. */
  ghost function FirstOf(e: Entry): PageId {
    match DecodeStub(e.stored) case Some(stub) => stub.first case None => 0
  }

  /** What the tree stands for: each row id with the row's value. */
  ghost function Table(s: Snap): map<Key, seq<byte>> {
    map k | k in Rows(s) :: ValueOf(s, Rows(s)[k])
  }

  ghost predicate StubsApart(rows: map<Key, Entry>, k: Key, l: Key)
    requires k in rows && l in rows
  {
    k != l && rows[k].overflow && rows[l].overflow ==> FirstOf(rows[k]) != FirstOf(rows[l])
  }

  /** Every chained row has a chain of its own. */
  ghost predicate StubsOk(s: Snap) {
    && (forall k {:trigger StubOk(s, Rows(s)[k])} :: k in Rows(s) ==> StubOk(s, Rows(s)[k]))
    && (forall k, l {:trigger StubsApart(Rows(s), k, l)} :: k in Rows(s) && l in Rows(s) ==> StubsApart(Rows(s), k, l))
  }

  // --- chains stay as they were published ------------------------------------------------------

  /** Chain `f` is the same, page for page, in `s` and `t`. */
  ghost predicate ChainKept(s: Snap, t: Snap, f: PageId)
    requires f in s.chains
  {
    && f in t.chains && t.chains[f] == s.chains[f]
    && forall x :: x in s.chains[f] && x in s.pages ==> x in t.pages && t.pages[x] == s.pages[x]
  }

  ghost predicate KeepsChains(s: Snap, t: Snap) {
    forall f {:trigger ChainKept(s, t, f)} :: f in s.chains ==> ChainKept(s, t, f)
  }

  /** At every moment the chains are well formed and every stub names one of its own, and a
      published chain never changes. */
  ghost predicate ChainTrace(tr: seq<Snap>) {
    && (forall i {:trigger ChainsOk(tr[i])} :: 0 <= i < |tr| ==> ChainsOk(tr[i]))
    && (forall i {:trigger StubsOk(tr[i])} :: 0 <= i < |tr| ==> StubsOk(tr[i]))
    && (forall i, j {:trigger KeepsChains(tr[i], tr[j])} :: 0 <= i <= j < |tr| ==> KeepsChains(tr[i], tr[j]))
  }

  lemma {:induction false} PayloadKept(p: map<PageId, Node>, q: map<PageId, Node>, ids: seq<PageId>)
    requires forall x :: x in ids ==> x in p && x in q && p[x] == q[x]
    ensures Payload(p, ids) == Payload(q, ids)
  {
    if ids != [] {
      assert ids[0] in ids;
      assert forall x :: x in ids[1..] ==> x in ids;
      PayloadKept(p, q, ids[1..]);
    }
  }

  lemma ChainPagesIn(s: Snap, f: PageId, x: PageId)
    requires f in s.chains && ChainOk(s, f) && x in s.chains[f]
    ensures x in s.pages && x !in s.nodes && s.pages[x].Overflow?
  {
    var i :| 0 <= i < |s.chains[f]| && s.chains[f][i] == x;
    assert ChainPage(s, s.chains[f], i);
  }

  lemma ChainKeptPayload(s: Snap, t: Snap, f: PageId)
    requires f in s.chains && ChainOk(s, f) && ChainKept(s, t, f)
    ensures Payload(t.pages, s.chains[f]) == Payload(s.pages, s.chains[f])
  {
    forall x | x in s.chains[f]
      ensures x in s.pages
    {
      ChainPagesIn(s, f, x);
    }
    PayloadKept(s.pages, t.pages, s.chains[f]);
  }

  /** A stub keeps its meaning while its chain is kept. */
  lemma ValueKept(s: Snap, t: Snap, e: Entry)
    requires ChainsOk(s) && KeepsChains(s, t) && StubOk(s, e)
    ensures StubOk(t, e) && ValueOf(t, e) == ValueOf(s, e)
  {
    if e.overflow {
      var f := FirstOf(e);
      assert ChainOk(s, f) && ChainKept(s, t, f);
      ChainKeptPayload(s, t, f);
    }
  }

  /** Chains survive a step that keeps their pages and makes none of them a node. */
  lemma ChainsOkKept(s: Snap, t: Snap)
    requires ChainsOk(s) && t.chains == s.chains && KeepsChains(s, t)
    requires forall x :: x in s.pages && x !in s.nodes ==> x !in t.nodes || s.pages[x].Overflow? == false
    ensures ChainsOk(t)
  {
    forall f | f in t.chains
      ensures ChainOk(t, f)
    {
      assert ChainOk(s, f) && ChainKept(s, t, f);
      var ids := t.chains[f];
      forall i | 0 <= i < |ids|
        ensures ChainPage(t, ids, i)
      {
        assert ChainPage(s, ids, i);
        assert ids[i] in ids;
      }
    }
    forall f, g | f in t.chains && g in t.chains
      ensures ChainsApart(t, f, g)
    {
      assert ChainsApart(s, f, g);
    }
  }

  /** The table follows the rows while chains are kept. */
  lemma TableKept(s: Snap, t: Snap)
    requires ChainsOk(s) && KeepsChains(s, t) && StubsOk(s) && Rows(t) == Rows(s)
    ensures StubsOk(t) && Table(t) == Table(s)
  {
    forall k | k in Rows(t)
      ensures StubOk(t, Rows(t)[k]) && ValueOf(t, Rows(t)[k]) == ValueOf(s, Rows(s)[k])
    {
      assert StubOk(s, Rows(s)[k]);
      ValueKept(s, t, Rows(s)[k]);
    }
    forall k, l | k in Rows(t) && l in Rows(t)
      ensures StubsApart(Rows(t), k, l)
    {
      assert StubsApart(Rows(s), k, l);
    }
  }

  // --- reading a chain with no latch -----------------------------------------------------------

  /** Reading chain pages from `at` on, each at its own moment, ends with the bytes `got`. */
  ghost predicate ChainRead(tr: seq<Snap>, at: PageId, from: nat, times: seq<nat>, got: seq<byte>)
    decreases |times|
  {
    && times != [] && from <= times[0] < |tr|
    && at in tr[times[0]].pages
    && var n := tr[times[0]].pages[at];
    && n.Overflow?
    && match n.next
       case None => |times| == 1 && got == n.payload
       case Some(next) =>
         && n.payload <= got
         && ChainRead(tr, next, times[0], times[1..], got[|n.payload|..])
  }

  lemma {:induction false} ChainReadFrom(tr: seq<Snap>, f: PageId, i: nat, base: nat, from: nat, times: seq<nat>, got: seq<byte>)
    requires ChainTrace(tr) && base <= from < |tr| && f in tr[base].chains && i < |tr[base].chains[f]|
    requires ChainRead(tr, tr[base].chains[f][i], from, times, got)
    ensures got == Payload(tr[base].pages, tr[base].chains[f][i..])
    ensures |times| == |tr[base].chains[f]| - i
    decreases |times|
  {
    var s, t := tr[base], tr[times[0]];
    var ids := s.chains[f];
    assert ChainsOk(s) && KeepsChains(s, t);
    assert ChainOk(s, f) && ChainKept(s, t, f) && ChainPage(s, ids, i);
    assert ids[i] in ids;
    var n := t.pages[ids[i]];
    assert ids[i..][0] == ids[i] && ids[i..][1..] == ids[i + 1..];
    if n.next.Some? {
      ChainReadFrom(tr, f, i + 1, base, times[0], times[1..], got[|n.payload|..]);
      assert got == n.payload + got[|n.payload|..];
    } else {
      assert ids[i + 1..] == [];
    }
  }

  /** A reader that holds a stub, however stale by now, reads its chain page by page with no latch
      and gets exactly the value the row had when the stub was read, after exactly as many pages
      as the stub promises. */
  lemma {:induction false} StaleStubReadsItsValue(tr: seq<Snap>, e: Entry, taken: nat, times: seq<nat>, got: seq<byte>)
    requires ChainTrace(tr) && taken < |tr| && e.overflow && StubOk(tr[taken], e)
    requires ChainRead(tr, FirstOf(e), taken, times, got)
    ensures DecodeStub(e.stored).value.prefix + got == ValueOf(tr[taken], e)
    ensures |times| == ChainLen(DecodeStub(e.stored).value.total)
  {
    var s := tr[taken];
    var f := FirstOf(e);
    assert ChainsOk(s);
    assert ChainOk(s, f);
    ChainReadFrom(tr, f, 0, taken, taken, times, got);
    assert s.chains[f][0..] == s.chains[f];
  }

  /** A latch-free lookup delivers a value the table had: the reader takes the leaf entry at one
      moment and reads its chain, page by page, at any later moments. */
  lemma {:induction false} ReaderGetsTableValue(tr: seq<Snap>, key: Key, taken: nat, times: seq<nat>, got: seq<byte>)
    requires Trace(tr) && ChainTrace(tr) && taken < |tr|
    requires RowAt(tr[taken], key).Some? && RowAt(tr[taken], key).value.overflow
    requires ChainRead(tr, FirstOf(RowAt(tr[taken], key).value), taken, times, got)
    ensures key in Table(tr[taken])
    ensures DecodeStub(RowAt(tr[taken], key).value.stored).Some?
    ensures DecodeStub(RowAt(tr[taken], key).value.stored).value.prefix + got == Table(tr[taken])[key]
  {
    assert StubsOk(tr[taken]);
    assert StubOk(tr[taken], Rows(tr[taken])[key]);
    StaleStubReadsItsValue(tr, Rows(tr[taken])[key], taken, times, got);
  }
}
