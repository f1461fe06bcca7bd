/** Where an overfull node is split, and that both halves fit a page. */
module KeySplit {
  import opened Bytes
  import opened Sequences
  import opened KeyOrder
  import opened KeyNode

  lemma {:induction false} SumJoin(a: seq<nat>, b: seq<nat>)
    ensures Sum(a + b) == Sum(a) + Sum(b)
    decreases |b|
  {
    if b == [] {
      assert a + b == a;
    } else {
      SumJoin(a, b[..|b| - 1]);
      assert (a + b)[..|a + b| - 1] == a + b[..|b| - 1];
    }
  }

  lemma {:induction false} SumSplit(sizes: seq<nat>, k: nat)
    requires k <= |sizes|
    ensures Sum(sizes) == Sum(sizes[..k]) + Sum(sizes[k..])
  {
    SumJoin(sizes[..k], sizes[k..]);
    assert sizes == sizes[..k] + sizes[k..];
  }

  /** The sizes a leaf entry (at least 12 bytes, at most 2000) or a separator (18 to 2006) takes. */
  ghost predicate Sizes(sizes: seq<nat>) {
    forall i {:trigger sizes[i]} :: 0 <= i < |sizes| ==> 12 <= sizes[i] <= 2006
  }

  lemma {:induction false} SumBounds(sizes: seq<nat>)
    requires Sizes(sizes)
    ensures 12 * |sizes| <= Sum(sizes) <= 2006 * |sizes|
    decreases |sizes|
  {
    if sizes != [] {
      SumBounds(sizes[..|sizes| - 1]);
    }
  }

  /** The first index, not zero, at which the running total passes half. */
  method SplitPoint(sizes: seq<nat>) returns (mid: nat)
    ensures mid >= 1
    ensures |sizes| >= 2 && Sum(sizes) > 0 ==>
              && mid < |sizes|
              && (mid > 1 ==> Sum(sizes[..mid]) <= Sum(sizes) / 2)
              && Sum(sizes[..mid]) + sizes[mid] > Sum(sizes) / 2
  {
    var total, count, acc := Sum(sizes), |sizes|, 0;
    for i := 0 to |sizes|
      invariant acc == Sum(sizes[..i])
      invariant i > 1 ==> acc <= total / 2
    {
      assert sizes[..i + 1][..i] == sizes[..i];
      if acc + sizes[i] > total / 2 && i > 0 {
        var capped := if i < count - 1 then i else count - 1;
        return if capped > 1 then capped else 1;
      }
      acc := acc + sizes[i];
    }
    assert sizes[..|sizes|] == sizes;
    return if count / 2 > 1 then count / 2 else 1;
  }

  /** A node that overflows by one item splits into two that fit, whatever the sizes: `budget` is
      what a page has left after its header, and items that fitted were joined by one more. Each
      half, and what is left of the right one without its first item, is not empty. */
  lemma {:induction false} HalvesFit(sizes: seq<nat>, mid: nat, budget: nat)
    requires Sizes(sizes) && 8171 <= budget <= 8179
    requires Sum(sizes) + 2 * (|sizes| - 1) <= budget + 2006 && Sum(sizes) + 2 * |sizes| > budget
    requires 1 <= mid < |sizes| && (mid > 1 ==> Sum(sizes[..mid]) <= Sum(sizes) / 2)
    requires Sum(sizes[..mid]) + sizes[mid] > Sum(sizes) / 2
    ensures Sum(sizes[..mid]) + 2 * mid <= budget
    ensures Sum(sizes[mid..]) + 2 * (|sizes| - mid) <= budget
    ensures mid + 1 < |sizes|
  {
    hide Sum;
    SumSplit(sizes, mid);
    SumBounds(sizes);
    if mid == 1 { assert sizes[..1] == [sizes[0]]; SumOne(sizes[0]); }
    if mid + 1 == |sizes| { assert sizes[mid..] == [sizes[mid]]; SumOne(sizes[mid]); }
  }

  lemma SumOne(n: nat)
    ensures Sum([n]) == n
  {
    assert [n][..0] == [];
  }

  /** The only node that overflows has several items. */
  lemma {:induction false} OverflowIsSeveral(sizes: seq<nat>, budget: nat)
    requires Sizes(sizes) && 8171 <= budget && Sum(sizes) + 2 * |sizes| > budget
    ensures |sizes| >= 5 && Sum(sizes) > 0
  {
    hide Sum;
    SumBounds(sizes);
  }
}
