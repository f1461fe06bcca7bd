/** Rows and their values: how one changed leaf entry changes the table the tree stands for, and
    which pages are whose. */
module BLinkRows {
  import opened Bytes
  import opened BLinkNode
  import opened BLinkInvariant
  import opened BLinkReader
  import opened BLinkPacking
  import opened BLinkSplit
  import opened BLinkChain
  import opened BLinkLeafWrite

  // --- the table -------------------------------------------------------------------------------

  ghost function SetRow(rows: map<Key, Entry>, k: Key, e: Option<Entry>): map<Key, Entry> {
    if e.Some? then rows[k := e.value] else rows - {k}
  }

  ghost function SetValue(table: map<Key, seq<byte>>, k: Key, v: Option<seq<byte>>): map<Key, seq<byte>> {
    if v.Some? then table[k := v.value] else table - {k}
  }

  ghost function ValueIn(s: Snap, e: Option<Entry>): Option<seq<byte>> {
    if e.Some? then Some(ValueOf(s, e.value)) else None
  }

  /** A chain of `s` that is still there in `t`, page for page. */
  lemma ChainsOutside(s: Snap, t: Snap)
    requires ChainsOk(s) && (forall f :: f in s.chains ==> f in t.chains && t.chains[f] == s.chains[f])
    requires forall x :: x in s.pages && x !in s.nodes ==> x in t.pages && t.pages[x] == s.pages[x]
    ensures KeepsChains(s, t)
  {
    forall f | f in s.chains
      ensures ChainKept(s, t, f)
    {
      assert ChainOk(s, f);
      forall x | x in s.chains[f]
        ensures x in s.pages && x !in s.nodes
      {
        ChainPagesIn(s, f, x);
      }
    }
  }

  /** The entry `e` replaces what is under `k` (or `k` is removed); its own chain, if it has one,
      is referenced by no other row. */
  ghost predicate OwnChain(rows: map<Key, Entry>, k: Key, e: Option<Entry>) {
    e.Some? ==>
      && e.value.key == k
      && (e.value.overflow ==> forall l :: l in rows && l != k && rows[l].overflow ==> FirstOf(rows[l]) != FirstOf(e.value))
  }

  lemma TableChanges(s: Snap, t: Snap, k: Key, e: Option<Entry>)
    requires ChainsOk(s) && StubsOk(s) && KeepsChains(s, t)
    requires Rows(t) == SetRow(Rows(s), k, e) && OwnChain(Rows(s), k, e)
    requires e.Some? ==> StubOk(t, e.value)
    ensures StubsOk(t) && Table(t) == SetValue(Table(s), k, ValueIn(t, e))
  {
    hide Rows, ChainsOk;
    forall l | l in Rows(t)
      ensures StubOk(t, Rows(t)[l])
      ensures ValueOf(t, Rows(t)[l]) == SetValue(Table(s), k, ValueIn(t, e))[l]
    {
      if l != k {
        assert StubOk(s, Rows(s)[l]);
        ValueKept(s, t, Rows(s)[l]);
      }
    }
    forall l, m | l in Rows(t) && m in Rows(t)
      ensures StubsApart(Rows(t), l, m)
    {
      if l != k && m != k { assert StubsApart(Rows(s), l, m); }
    }
  }

  // --- page accounting -------------------------------------------------------------------------

  ghost function LiveChains(rows: map<Key, Entry>): set<PageId> {
    set k | k in rows && rows[k].overflow :: FirstOf(rows[k])
  }

  ghost function ChainPagesOf(chains: map<PageId, seq<PageId>>, firsts: set<PageId>): set<PageId> {
    set f, x | f in firsts && f in chains && x in chains[f] :: x
  }

  /** Every page is a tree node, or belongs to the chain of a row, or to a retired chain. */
  ghost predicate Accounted(s: Snap, retired: set<PageId>) {
    && LiveChains(Rows(s)) !! retired
    && s.chains.Keys == LiveChains(Rows(s)) + retired
    && s.pages.Keys == s.nodes.Keys + ChainPagesOf(s.chains, s.chains.Keys)
  }

  /** The chain a row stops referencing when `k` is changed. */
  ghost function Dropped(rows: map<Key, Entry>, k: Key): set<PageId> {
    if k in rows && rows[k].overflow then {FirstOf(rows[k])} else {}
  }

  ghost function Gained(e: Option<Entry>): set<PageId> {
    if e.Some? && e.value.overflow then {FirstOf(e.value)} else {}
  }

  ghost predicate AllApart(rows: map<Key, Entry>) {
    forall k, l {:trigger StubsApart(rows, k, l)} :: k in rows && l in rows ==> StubsApart(rows, k, l)
  }

  lemma LiveAfter(rows: map<Key, Entry>, k: Key, e: Option<Entry>, f: PageId)
    requires AllApart(rows) && OwnChain(rows, k, e) && f in LiveChains(SetRow(rows, k, e))
    ensures f in LiveChains(rows) - Dropped(rows, k) + Gained(e)
  {
    var after := SetRow(rows, k, e);
    var l :| l in after && after[l].overflow && FirstOf(after[l]) == f;
    if l != k {
      assert rows[l] == after[l];
      if k in rows { assert StubsApart(rows, l, k); }
    }
  }

  lemma LiveBefore(rows: map<Key, Entry>, k: Key, e: Option<Entry>, f: PageId)
    requires f in LiveChains(rows) - Dropped(rows, k) + Gained(e)
    ensures f in LiveChains(SetRow(rows, k, e))
  {
    var after := SetRow(rows, k, e);
    if f in Gained(e) {
      assert k in after && after[k] == e.value;
    } else {
      var l :| l in rows && rows[l].overflow && FirstOf(rows[l]) == f;
      assert l != k;
      assert l in after && after[l] == rows[l];
    }
  }

  lemma LiveChanges(s: Snap, k: Key, e: Option<Entry>)
    requires StubsOk(s) && OwnChain(Rows(s), k, e)
    ensures LiveChains(SetRow(Rows(s), k, e)) == LiveChains(Rows(s)) - Dropped(Rows(s), k) + Gained(e)
  {
    hide Rows, OwnChain, SetRow, LiveChains, Dropped, Gained;
    var rows := Rows(s);
    assert AllApart(rows);
    forall f | f in LiveChains(SetRow(rows, k, e))
      ensures f in LiveChains(rows) - Dropped(rows, k) + Gained(e)
    {
      LiveAfter(rows, k, e, f);
    }
    forall f | f in LiveChains(rows) - Dropped(rows, k) + Gained(e)
      ensures f in LiveChains(SetRow(rows, k, e))
    {
      LiveBefore(rows, k, e, f);
    }
  }

  /** Only the changed row's chains change hands. */
  lemma AccountedAfter(s: Snap, t: Snap, k: Key, e: Option<Entry>, retired: set<PageId>)
    requires StubsOk(s) && OwnChain(Rows(s), k, e) && Rows(t) == SetRow(Rows(s), k, e)
    requires LiveChains(Rows(s)) !! retired && s.chains.Keys == LiveChains(Rows(s)) + retired
    requires t.chains.Keys == s.chains.Keys + Gained(e) && Gained(e) !! s.chains.Keys
    requires t.pages.Keys == t.nodes.Keys + ChainPagesOf(t.chains, t.chains.Keys)
    ensures Accounted(t, retired + Dropped(Rows(s), k))
  {
    hide Rows, StubsOk, ChainPagesOf, Gained;
    LiveChanges(s, k, e);
    assert Dropped(Rows(s), k) <= LiveChains(Rows(s));
  }

  // --- sizes decide the packing ----------------------------------------------------------------

  ghost predicate SameShape(es: seq<Entry>, fs: seq<Entry>) {
    |es| == |fs| && forall i :: 0 <= i < |es| ==> es[i].key == fs[i].key && |es[i].stored| == |fs[i].stored|
  }

  lemma {:induction false} SameShapeTotal(es: seq<Entry>, fs: seq<Entry>)
    requires SameShape(es, fs)
    ensures TotalSize(es) == TotalSize(fs)
  {
    if es != [] { SameShapeTotal(es[1..], fs[1..]); }
  }

  ghost predicate SameChunks(cs: seq<seq<Entry>>, ds: seq<seq<Entry>>) {
    |cs| == |ds| && forall i :: 0 <= i < |cs| ==> SameShape(cs[i], ds[i])
  }

  lemma {:induction false} SameShapePack(es: seq<Entry>, fs: seq<Entry>, open: seq<Entry>, open': seq<Entry>)
    requires SameShape(es, fs) && SameShape(open, open')
    ensures SameChunks(Pack(es, open), Pack(fs, open'))
    decreases |es|
  {
    SameShapeTotal(open, open');
    if es != [] {
      if open != [] && TotalSize(open) + EntrySize(es[0]) > LEAF_CAPACITY {
        SameShapePack(es[1..], fs[1..], [es[0]], [fs[0]]);
      } else {
        SameShapePack(es[1..], fs[1..], open + [es[0]], open' + [fs[0]]);
      }
    }
  }

  /** An entry of the size `tuple` will take in a leaf, before any chain page is allocated. */
  function Sketch(key: Key, tuple: seq<byte>): Entry {
    if |tuple| <= MAX_TUPLE then Entry(key, tuple, false)
    else Entry(key, seq(OVERFLOW_STUB, _ => 0 as byte), true)
  }

  /** `es` with `e` in its place by key, added or replacing what is there. */
  function Put(es: seq<Entry>, e: Entry): seq<Entry> {
    if es == [] || e.key < es[0].key then [e] + es
    else if e.key == es[0].key then [e] + es[1..]
    else [es[0]] + Put(es[1..], e)
  }

  lemma InsertedTail(es: seq<Entry>, at: nat, e: Entry)
    requires 0 < at <= |es|
    ensures Inserted(es, at, e) == [es[0]] + Inserted(es[1..], at - 1, e)
    ensures at < |es| ==> es[at := e] == [es[0]] + es[1..][at - 1 := e]
  {
  }

  lemma InsertedFirst(es: seq<Entry>, e: Entry)
    ensures Inserted(es, 0, e) == [e] + es
    ensures es != [] ==> es[0 := e] == [e] + es[1..]
  {
  }

  lemma {:induction false} PutInserts(es: seq<Entry>, at: nat, e: Entry)
    requires Sorted(es) && IsPosition(es, e.key, at)
    ensures Put(es, e) == if FoundAt(es, e.key, at) then es[at := e] else Inserted(es, at, e)
    decreases |es|
  {
    hide Inserted;
    if es != [] && e.key > es[0].key {
      assert at > 0;
      PutInserts(es[1..], at - 1, e);
      InsertedTail(es, at, e);
    } else {
      assert at == 0;
      InsertedFirst(es, e);
    }
  }

  // --- answers ---------------------------------------------------------------------------------

  /** Looking any row id up in the store gives what `table` has under it. */
  ghost predicate AnswersAs(s: Snap, table: map<Key, seq<byte>>) {
    forall k {:trigger AnswersAt(s, table, k)} :: AnswersAt(s, table, k)
  }

  ghost predicate AnswersAt(s: Snap, table: map<Key, seq<byte>>, k: Key) {
    exists found :: LooksUp(s, k, found) && ValueIn(s, found) == (if k in table then Some(table[k]) else None)
  }

  /** A sound tree answers as its table. */
  lemma SoundAnswers(s: Snap)
    requires Inv(s)
    ensures AnswersAs(s, Table(s))
  {
    forall k
      ensures AnswersAt(s, Table(s), k)
    {
      LooksUpRow(s, k);
    }
  }

  /** A tree that has lost a row does not. */
  lemma LostDoesNotAnswer(s: Snap, table: map<Key, seq<byte>>, k: Key)
    requires LooksUp(s, k, None) && k in table
    ensures !AnswersAs(s, table)
  {
    if AnswersAs(s, table) {
      assert AnswersAt(s, table, k);
      var found :| LooksUp(s, k, found) && ValueIn(s, found) == Some(table[k]);
      LooksUpOnce(s, k, found, None);
    }
  }
}
