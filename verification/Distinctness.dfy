/** Sequences that name nothing twice. */
module Distinctness {

  ghost predicate Distinct(xs: seq<nat>) {
    forall i, j {:trigger xs[i], xs[j]} :: 0 <= i < j < |xs| ==> xs[i] != xs[j]
  }
}
