/** Replacing one subtree leaves the rest of the index alone. */
module KeyPath {
  import opened Bytes
  import opened Sequences
  import opened KeyOrder
  import opened KeyNode
  import opened KeyShape

  predicate StepOk(s: Step) { s.node.Branch? && s.at < |s.node.kids| && |s.node.kids| == |s.node.seps| + 1 }

  ghost predicate StepsOk(steps: seq<Step>) {
    forall i {:trigger steps[i]} :: 0 <= i < |steps| ==> StepOk(steps[i])
  }

  /** The branch with another child in place of the one the step takes. */
  ghost function Kid(s: Step, x: Tree): Tree
    requires StepOk(s)
  {
    Branch(s.node.id, s.node.kids[s.at := x], s.node.seps)
  }

  /** The whole index with `x` at the end of the path. */
  ghost function Plug(steps: seq<Step>, x: Tree): Tree
    requires StepsOk(steps)
    decreases |steps|
  {
    if steps == [] then x else Plug(steps[..|steps| - 1], Kid(steps[|steps| - 1], x))
  }

  ghost function KidsBefore(s: Step): seq<Tree>
    requires StepOk(s)
  {
    s.node.kids[..s.at]
  }

  ghost function KidsAfter(s: Step): seq<Tree>
    requires StepOk(s)
  {
    s.node.kids[s.at + 1..]
  }

  lemma KidSplits(s: Step, x: Tree)
    requires StepOk(s)
    ensures Kid(s, x).kids == KidsBefore(s) + [x] + KidsAfter(s)
  {
  }

  // Leaves ---------------------------------------------------------------------------------------

  ghost function LeftLeaves(steps: seq<Step>): seq<Tree>
    requires StepsOk(steps)
    decreases |steps|
  {
    if steps == [] then [] else LeftLeaves(steps[..|steps| - 1]) + LeavesOf(KidsBefore(steps[|steps| - 1]))
  }

  ghost function RightLeaves(steps: seq<Step>): seq<Tree>
    requires StepsOk(steps)
    decreases |steps|
  {
    if steps == [] then [] else LeavesOf(KidsAfter(steps[|steps| - 1])) + RightLeaves(steps[..|steps| - 1])
  }

  lemma {:induction false} KidsLeaves(a: seq<Tree>, x: Tree, b: seq<Tree>)
    ensures LeavesOf(a + [x] + b) == LeavesOf(a) + Leaves(x) + LeavesOf(b)
  {
    LeavesJoin(a + [x], b);
    LeavesJoin(a, [x]);
    SingleTree(x);
  }

  lemma {:induction false} PlugLeaves(steps: seq<Step>, x: Tree)
    requires StepsOk(steps)
    ensures Leaves(Plug(steps, x)) == LeftLeaves(steps) + Leaves(x) + RightLeaves(steps)
    decreases |steps|
  {
    hide LeavesOf;
    if steps != [] {
      var s, up := steps[|steps| - 1], steps[..|steps| - 1];
      KidSplits(s, x);
      KidsLeaves(KidsBefore(s), x, KidsAfter(s));
      PlugLeaves(up, Kid(s, x));
      Regroup(LeftLeaves(up), LeavesOf(KidsBefore(s)), Leaves(x), LeavesOf(KidsAfter(s)), RightLeaves(up));
    }
  }

  lemma Regroup<T>(a: seq<T>, b: seq<T>, c: seq<T>, d: seq<T>, e: seq<T>)
    ensures a + (b + c + d) + e == (a + b) + c + (d + e)
  {
  }

  // Pages named once -----------------------------------------------------------------------------

  ghost function PathIds(steps: seq<Step>): set<PageId>
    requires StepsOk(steps)
    decreases |steps|
  {
    if steps == [] then {}
    else
      var s := steps[|steps| - 1];
      PathIds(steps[..|steps| - 1]) + {s.node.id} + IdsOf(KidsBefore(s)) + IdsOf(KidsAfter(s))
  }

  ghost predicate PathOnce(steps: seq<Step>)
    requires StepsOk(steps)
    decreases |steps|
  {
    steps != [] ==>
      var s, up := steps[|steps| - 1], steps[..|steps| - 1];
      && PathOnce(up)
      && OnceAll(KidsBefore(s)) && OnceAll(KidsAfter(s)) && IdsOf(KidsBefore(s)) !! IdsOf(KidsAfter(s))
      && s.node.id !in IdsOf(KidsBefore(s)) + IdsOf(KidsAfter(s))
      && PathIds(up) !! {s.node.id} + IdsOf(KidsBefore(s)) + IdsOf(KidsAfter(s))
  }

  lemma {:induction false} KidsIds(a: seq<Tree>, x: Tree, b: seq<Tree>)
    ensures IdsOf(a + [x] + b) == IdsOf(a) + Ids(x) + IdsOf(b)
    ensures OnceAll(a + [x] + b) <==>
              && OnceAll(a) && Once(x) && OnceAll(b)
              && IdsOf(a) !! Ids(x) && (IdsOf(a) + Ids(x)) !! IdsOf(b)
  {
    IdsJoin(a + [x], b);
    IdsJoin(a, [x]);
    OnceJoin(a + [x], b);
    OnceJoin(a, [x]);
    SingleTree(x);
  }

  lemma {:induction false} PlugIds(steps: seq<Step>, x: Tree)
    requires StepsOk(steps)
    ensures Ids(Plug(steps, x)) == PathIds(steps) + Ids(x)
    ensures Once(Plug(steps, x)) <==> PathOnce(steps) && Once(x) && Ids(x) !! PathIds(steps)
    decreases |steps|
  {
    if steps != [] {
      var s := steps[|steps| - 1];
      KidSplits(s, x);
      KidsIds(KidsBefore(s), x, KidsAfter(s));
      PlugIds(steps[..|steps| - 1], Kid(s, x));
    }
  }

  // Ranges and levels ----------------------------------------------------------------------------

  ghost function HoleLo(steps: seq<Step>): Edge
    requires StepsOk(steps)
    decreases |steps|
  {
    if steps == [] then Lowest
    else var s := steps[|steps| - 1]; LoOf(s.node.seps, s.at, HoleLo(steps[..|steps| - 1]))
  }

  ghost function HoleHi(steps: seq<Step>): Edge
    requires StepsOk(steps)
    decreases |steps|
  {
    if steps == [] then Highest
    else var s := steps[|steps| - 1]; HiOf(s.node.seps, s.at, HoleHi(steps[..|steps| - 1]))
  }

  /** Every branch on the path, but for the child taken, is in order. */
  ghost predicate PathGood(steps: seq<Step>, top: nat)
    requires StepsOk(steps)
    decreases |steps|
  {
    steps != [] ==>
      var s, up := steps[|steps| - 1], steps[..|steps| - 1];
      && |steps| <= top && PathGood(up, top)
      && SepsOk(s.node.seps, HoleLo(up), HoleHi(up))
      && OthersGood(s, top - |steps|, HoleLo(up), HoleHi(up))
  }

  lemma {:induction false} KidGood(s: Step, x: Tree, level: nat, lo: Edge, hi: Edge)
    requires StepOk(s)
    ensures Good(Kid(s, x), level, lo, hi) <==>
              && level > 0 && SepsOk(s.node.seps, lo, hi)
              && OthersGood(s, level - 1, lo, hi)
              && Good(x, level - 1, LoOf(s.node.seps, s.at, lo), HiOf(s.node.seps, s.at, hi))
  {
    hide SepsOk, LeafOk;
    var kids := Kid(s, x).kids;
    assert forall i {:trigger kids[i]} {:trigger s.node.kids[i]} :: 0 <= i < |kids| ==> kids[i] == if i == s.at then x else s.node.kids[i];
    assert |kids| == |s.node.kids| && kids[s.at] == x;
  }

  /** Every child but the one taken is in order. */
  ghost predicate OthersGood(s: Step, level: nat, lo: Edge, hi: Edge)
    requires StepOk(s)
  {
    forall i {:trigger s.node.kids[i]} :: 0 <= i < |s.node.kids| && i != s.at ==>
      Good(s.node.kids[i], level, LoOf(s.node.seps, i, lo), HiOf(s.node.seps, i, hi))
  }

  lemma {:induction false} PlugGood(steps: seq<Step>, x: Tree, top: nat)
    requires StepsOk(steps)
    ensures Good(Plug(steps, x), top, Lowest, Highest) <==>
              |steps| <= top && PathGood(steps, top) && Good(x, top - |steps|, HoleLo(steps), HoleHi(steps))
    decreases |steps|
  {
    hide Good, SepsOk, OthersGood;
    if steps != [] {
      var s, up := steps[|steps| - 1], steps[..|steps| - 1];
      PlugGood(up, Kid(s, x), top);
      if |up| <= top { KidGood(s, x, top - |up|, HoleLo(up), HoleHi(up)); }
    }
  }

  ghost predicate PathFull(steps: seq<Step>)
    requires StepsOk(steps)
  {
    forall k, i {:trigger steps[k].node.kids[i]} :: 0 <= k < |steps| && 0 <= i < |steps[k].node.kids| && i != steps[k].at ==>
      Full(steps[k].node.kids[i])
  }

  lemma {:induction false} PlugFull(steps: seq<Step>, x: Tree)
    requires StepsOk(steps)
    ensures Full(Plug(steps, x)) <==> PathFull(steps) && Full(x)
    decreases |steps|
  {
    if steps != [] {
      var n := |steps| - 1;
      var s, up := steps[n], steps[..n];
      PlugFull(up, Kid(s, x));
      var kids := Kid(s, x).kids;
      assert forall i {:trigger kids[i]} {:trigger s.node.kids[i]} :: 0 <= i < |kids| ==> kids[i] == if i == s.at then x else s.node.kids[i];
      assert kids[s.at] == x;
      assert forall k {:trigger up[k]} {:trigger steps[k]} :: 0 <= k < n ==> up[k] == steps[k];
    }
  }
}
