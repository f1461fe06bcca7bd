/** One element more or less in a sequence, and the sizes pages have. */
module Sequences {

  const PAGE_SIZE := 8192
  const LEAF_HEADER := 21
  const INTERIOR_HEADER := 13

  function InsertAt<T>(xs: seq<T>, i: nat, x: T): seq<T>
    requires i <= |xs|
  {
    xs[..i] + [x] + xs[i..]
  }

  function RemoveAt<T>(xs: seq<T>, i: nat): seq<T>
    requires i < |xs|
  {
    xs[..i] + xs[i + 1..]
  }
}
