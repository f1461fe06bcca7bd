/** Whole lookups that take no latch, against one write that overlaps them. */
module BLinkLookup {
  import opened Bytes
  import opened BLinkNode
  import opened BLinkInvariant
  import opened BLinkReader
  import opened BLinkChain
  import opened BLinkMoments
  import opened BLinkOps

  /** A lookup of `key` that began at the root of moment `from`, moved on at the moments `visits`, took
      the leaf `at` at the moment `now`, and read the chain its row may have at the moments `times`:
      what it answered. */
  ghost predicate Lookup(tr: seq<Snap>, key: Key, from: nat, visits: seq<nat>, at: PageId, now: nat,
                         times: seq<nat>, answer: Option<seq<byte>>)
  {
    && from < |tr| && Walk(tr, key, tr[from].root, from, visits, at)
    && LastRead(from, visits) <= now < |tr|
    && at in tr[now].pages && tr[now].pages[at].Leaf? && !Passed(tr[now].pages[at], key)
    && match Find(tr[now].pages[at].entries, key)
       case None => answer == None
       case Some(e) =>
         if !e.overflow then answer == Some(e.stored)
         else exists got {:trigger ChainRead(tr, FirstOf(e), now, times, got)} ::
           && ChainRead(tr, FirstOf(e), now, times, got)
           && DecodeStub(e.stored).Some? && answer == Some(DecodeStub(e.stored).value.prefix + got)
  }

  ghost function ValueAt(table: map<Key, seq<byte>>, key: Key): Option<seq<byte>> {
    if key in table then Some(table[key]) else None
  }

  /** A lookup answers what the table held at the moment its leaf was read, whatever was written
      before, between and after its reads. */
  lemma LookupIsAtomic(tr: seq<Snap>, key: Key, from: nat, visits: seq<nat>, at: PageId, now: nat,
                       times: seq<nat>, answer: Option<seq<byte>>)
    requires Trace(tr) && ChainTrace(tr) && Lookup(tr, key, from, visits, at, now, times, answer)
    ensures answer == ValueAt(Table(tr[now]), key)
  {
    hide Trace, ChainTrace, Walk, ChainRead;
    ReaderFindsCurrentRow(tr, key, from, visits, at, now);
    var row := RowAt(tr[now], key);
    if row.Some? && row.value.overflow {
      var got :| && ChainRead(tr, FirstOf(row.value), now, times, got)
                 && DecodeStub(row.value.stored).Some? && answer == Some(DecodeStub(row.value.stored).value.prefix + got);
      ReaderGetsTableValue(tr, key, now, times, got);
    }
  }

  /** A lookup whose leaf is read during a write of the row `changed`, or later, answers exactly for
      every other row, and for that row what it was before the write or what it is after. */
  lemma LookupDuringWrite(tr0: seq<Snap>, tr: seq<Snap>, s: Snap, t: Snap, changed: Key, key: Key, from: nat,
                          visits: seq<nat>, at: PageId, now: nat, times: seq<nat>, answer: Option<seq<byte>>)
    requires Recorded(tr0, s) && Recorded(tr, t) && TableSwitches(tr0, tr, Table(s), Table(t))
    requires forall k {:trigger ValueAt(Table(s), k)} :: k != changed ==> ValueAt(Table(t), k) == ValueAt(Table(s), k)
    requires Lookup(tr, key, from, visits, at, now, times, answer) && now >= |tr0| - 1
    ensures key != changed ==> answer == ValueAt(Table(s), key)
    ensures answer == ValueAt(Table(s), key) || answer == ValueAt(Table(t), key)
  {
    hide Trace, ChainTrace, Walk, ChainRead, Table;
    LookupIsAtomic(tr, key, from, visits, at, now, times, answer);
    assert tr[|tr0| - 1] == tr0[|tr0| - 1];
    var lin: nat :| TableSwitchesAt(|tr0|, tr, Table(s), Table(t), lin);
  }
}
