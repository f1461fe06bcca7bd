/** How an overflowing leaf is packed into several: next-fit by bytes, in order. */
module BLinkPacking {
  import opened Bytes
  import opened BLinkNode

  /** The chunks `es` is packed into when `open` is the chunk being filled: an entry that would
      overflow the open chunk closes it and starts the next. */
  function Pack(es: seq<Entry>, open: seq<Entry>): seq<seq<Entry>>
    decreases |es|
  {
    if es == [] then if open == [] then [] else [open]
    else if open != [] && TotalSize(open) + EntrySize(es[0]) > LEAF_CAPACITY then
      [open] + Pack(es[1..], [es[0]])
    else
      Pack(es[1..], open + [es[0]])
  }

  method PackLeaf(es: seq<Entry>) returns (chunks: seq<seq<Entry>>)
    ensures chunks == Pack(es, [])
  {
    chunks := [];
    var current: seq<Entry>, used := [], 0;
    var i := 0;
    while i < |es|
      invariant 0 <= i <= |es|
      invariant used == TotalSize(current)
      invariant Pack(es, []) == chunks + Pack(es[i..], current)
    {
      var size := EntrySize(es[i]);
      assert es[i..][1..] == es[i + 1..];
      if current != [] && used + size > LEAF_CAPACITY {
        chunks := chunks + [current];
        current := [];
        used := 0;
      }
      TotalConcat(current, [es[i]]);
      used := used + size;
      current := current + [es[i]];
      assert current == [es[i]] ==> current == [] + [es[i]];
      i := i + 1;
    }
    if current != [] {
      chunks := chunks + [current];
    }
  }

  lemma {:induction false} TotalConcat(a: seq<Entry>, b: seq<Entry>)
    ensures TotalSize(a + b) == TotalSize(a) + TotalSize(b)
  {
    if a == [] {
      assert a + b == b;
    } else {
      assert (a + b)[1..] == a[1..] + b;
      TotalConcat(a[1..], b);
    }
  }

  function Flatten(chunks: seq<seq<Entry>>): seq<Entry> {
    if chunks == [] then [] else chunks[0] + Flatten(chunks[1..])
  }

  /** Every chunk is a non-empty leaf that fits, and no chunk had room for the entry after it. */
  ghost predicate Tight(chunks: seq<seq<Entry>>) {
    chunks != [] ==>
      && chunks[0] != [] && TotalSize(chunks[0]) <= LEAF_CAPACITY
      && (|chunks| > 1 ==> chunks[1] != [] && TotalSize(chunks[0]) + EntrySize(chunks[1][0]) > LEAF_CAPACITY)
      && Tight(chunks[1..])
  }

  ghost predicate EachFits(es: seq<Entry>) {
    forall e :: e in es ==> EntrySize(e) <= LEAF_CAPACITY
  }

  lemma TotalOne(e: Entry)
    ensures TotalSize([e]) == EntrySize(e)
  {
    assert [e][1..] == [];
  }

  /** Packing keeps every entry, in order, and every chunk fits a page. */
  lemma {:induction false} PackIsTight(es: seq<Entry>, open: seq<Entry>)
    requires EachFits(es) && TotalSize(open) <= LEAF_CAPACITY
    ensures Flatten(Pack(es, open)) == open + es
    ensures Tight(Pack(es, open))
    ensures open != [] ==> Pack(es, open) != [] && Pack(es, open)[0] != [] && Pack(es, open)[0][0] == open[0]
    decreases |es|
  {
    hide TotalSize;
    if es != [] {
      var e := es[0];
      assert e in es && EachFits(es[1..]);
      assert es == [e] + es[1..];
      TotalOne(e);
      if open != [] && TotalSize(open) + EntrySize(e) > LEAF_CAPACITY {
        PackIsTight(es[1..], [e]);
        var rest := Pack(es[1..], [e]);
        assert ([open] + rest)[1..] == rest;
        assert open + es == open + ([e] + es[1..]);
      } else {
        TotalConcat(open, [e]);
        if open == [] { assert open + [e] == [e]; }
        PackIsTight(es[1..], open + [e]);
        assert open + es == open + [e] + es[1..];
      }
    } else if open != [] {
      assert [open][1..] == [];
      assert open + es == open + [];
    }
  }

  lemma {:induction false} FlattenTwo(chunks: seq<seq<Entry>>)
    requires |chunks| >= 2
    ensures Flatten(chunks) == chunks[0] + chunks[1] + Flatten(chunks[2..])
  {
    assert chunks[1..][1..] == chunks[2..] && chunks[1..][0] == chunks[1];
  }

  lemma {:induction false} FlattenLast(chunks: seq<seq<Entry>>)
    requires chunks != []
    ensures Flatten(chunks) == Flatten(chunks[..|chunks| - 1]) + chunks[|chunks| - 1]
  {
    if |chunks| == 1 {
      assert chunks[1..] == [] && chunks[..0] == [];
    } else {
      FlattenLast(chunks[1..]);
      assert chunks[1..][..|chunks| - 2] == chunks[..|chunks| - 1][1..];
    }
  }

  /** Two neighbouring chunks together exceed a page. */
  lemma {:induction false} PairOverflows(chunks: seq<seq<Entry>>)
    requires |chunks| >= 2 && Tight(chunks)
    ensures TotalSize(chunks[0] + chunks[1]) > LEAF_CAPACITY
    ensures Tight(chunks[2..])
  {
    var a, b := chunks[0], chunks[1];
    assert chunks[1..][1..] == chunks[2..];
    TotalConcat(a, b);
  }

  lemma {:induction false} TotalPart(es: seq<Entry>, a: nat, b: nat)
    requires a <= b <= |es|
    ensures TotalSize(es[a..b]) <= TotalSize(es)
  {
    hide TotalSize;
    assert es == es[..a] + (es[a..b] + es[b..]);
    TotalConcat(es[..a], es[a..b] + es[b..]);
    TotalConcat(es[a..b], es[b..]);
  }

  /** `es` is a leaf that fitted, except that the entry at `pos` was added or replaced. */
  ghost predicate OneChanged(es: seq<Entry>, pos: nat) {
    && pos < |es|
    && EachFits(es)
    && TotalSize(es[..pos]) + TotalSize(es[pos + 1..]) <= LEAF_CAPACITY
  }

  /** A stretch of entries that overflows a page contains the changed entry. */
  lemma OverflowHasChange(es: seq<Entry>, pos: nat, a: nat, b: nat)
    requires OneChanged(es, pos) && a <= b <= |es| && TotalSize(es[a..b]) > LEAF_CAPACITY
    ensures a <= pos < b
  {
    hide TotalSize;
    if pos >= b {
      assert es[..pos][a..b] == es[a..b];
      TotalPart(es[..pos], a, b);
    } else if pos < a {
      assert es[pos + 1..][a - pos - 1..b - pos - 1] == es[a..b];
      TotalPart(es[pos + 1..], a - pos - 1, b - pos - 1);
    }
  }

  /** The first two of several chunks contain the changed entry; so nothing after them overflows. */
  lemma {:induction false} ChangeInFirstTwo(es: seq<Entry>, pos: nat, chunks: seq<seq<Entry>>)
    requires OneChanged(es, pos) && Tight(chunks) && Flatten(chunks) == es && |chunks| >= 2
    ensures pos < |chunks[0] + chunks[1]| <= |es|
    ensures |chunks| <= 3
  {
    hide TotalSize, OneChanged, Flatten, Tight;
    var a := |chunks[0] + chunks[1]|;
    FlattenTwo(chunks);
    PairOverflows(chunks);
    assert chunks[0] + chunks[1] == es[0..a];
    OverflowHasChange(es, pos, 0, a);
    if |chunks| >= 4 {
      var rest := chunks[2..];
      var b := a + |rest[0] + rest[1]|;
      FlattenTwo(rest);
      PairOverflows(rest);
      assert rest[0] + rest[1] == es[a..b];
      OverflowHasChange(es, pos, a, b);
    }
  }

  /** One insert or update overflows a leaf into two or three leaves, never four. */
  lemma {:induction false} TwoOrThree(es: seq<Entry>, pos: nat)
    requires OneChanged(es, pos)
    ensures var chunks := Pack(es, []);
            && Tight(chunks) && Flatten(chunks) == es
            && 1 <= |chunks| <= 3
            && (TotalSize(es) > LEAF_CAPACITY ==> |chunks| >= 2)
  {
    var chunks := Pack(es, []);
    PackIsTight(es, []);
    assert [] + es == es;
    if |chunks| == 1 {
      assert chunks[1..] == [];
      assert es == chunks[0] + [] == chunks[0];
    } else if |chunks| >= 2 {
      ChangeInFirstTwo(es, pos, chunks);
    }
  }

  /** An entry appended after every other one never overflows a leaf into three: row ids are
      handed out in ascending order, so an insert alone always splits in two. */
  lemma {:induction false} AppendSplitsInTwo(es: seq<Entry>)
    requires es != [] && OneChanged(es, |es| - 1)
    ensures |Pack(es, [])| <= 2
  {
    var chunks := Pack(es, []);
    PackIsTight(es, []);
    assert [] + es == es;
    if |chunks| >= 3 {
      FlattenTwo(chunks);
      PairOverflows(chunks);
      assert chunks[2..] != [] && |Flatten(chunks[2..])| >= 1;
      ChangeInFirstTwo(es, |es| - 1, chunks);
    }
  }

  // --- entry counts ----------------------------------------------------------------------------

  lemma {:induction false} CountBounded(es: seq<Entry>)
    ensures LEAF_ENTRY_HEADER * |es| <= TotalSize(es)
  {
    if es != [] { CountBounded(es[1..]); }
  }

  /** The 16-bit entry count never stands in the way of a page that has the bytes. */
  lemma {:induction false} BytesDecide(es: seq<Entry>)
    ensures LeafFits(es) <==> TotalSize(es) <= LEAF_CAPACITY
  {
    CountBounded(es);
  }

  lemma {:induction false} TightChunks(chunks: seq<seq<Entry>>, i: nat)
    requires Tight(chunks) && i < |chunks|
    ensures chunks[i] != [] && LeafFits(chunks[i])
  {
    BytesDecide(chunks[i]);
    if i > 0 { TightChunks(chunks[1..], i - 1); }
  }
}
