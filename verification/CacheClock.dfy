/** The clock that picks which frame leaves, and the sections that move it. */
module CacheClock {
  import opened Bytes
  import opened Distinctness
  import opened CacheState
  import opened SpillFile
  import opened CacheSteps
  import opened CacheLeave

  /** What a sweep does with an unreferenced changed frame: pass it by, keep the first to spill
      if no clean one is found, or take it. */
  datatype Policy = Skip | Fallback | Take

  /** A section that moves the clock, and at most one thread that waited for it. */
  lemma ClockMoves(s: State, s2: State, h: History, t: nat)
    requires Inv(s, h)
    requires s2 == s.(clock := s2.clock, picked := s2.picked, touched := s2.touched, capacity := s2.capacity, tasks := s2.tasks)
    requires t in s2.tasks ==> t in s.tasks && s2.tasks[t] == s.tasks[t]
    requires t in s.tasks && t !in s2.tasks ==> s.tasks[t].Tick?
    requires SameTasksBut(s, s2, t) && ClockOk(s2)
    ensures Inv(s2, h)
  {
    hide DirOk, SpillOk, ContentOk, FramesOk, IdsOk, ClockOk, LatchesOk, TasksOk;
    assert DirtyIds(s2) == DirtyIds(s) && Counting(s2) == Counting(s) && Straying(s2) == Straying(s);
    IdsStay(s, s2, h, h, t);
    LatchesStay(s, s2, t);
    SameTaskOk(s, s2, h, t);
    Moves(s, s2, h, h, t);
  }

  lemma SameTaskOk(s: State, s2: State, h: History, t: nat)
    requires TasksOk(s, h) && SameContent(s, s2) && (t in s2.tasks ==> t in s.tasks && s2.tasks[t] == s.tasks[t])
    ensures TaskOk(s2, h, t)
  {
    assert TaskOk(s, h, t);
  }

  /** The spill's free slots or flags change, and the picked page goes back on the clock. */
  lemma SpillFails(s: State, spill: Spill, h: History)
    requires Inv(s, h) && SpillOk(spill)
    requires spill.slots == s.spill.slots && spill.file == s.spill.file && spill.gen == s.spill.gen
    ensures Inv(s.(spill := spill), h)
  {
    hide DirOk, SpillOk, ContentOk, FramesOk, IdsOk, DirtyOk, ClockOk, LatchesOk, TasksOk;
    var s2 := s.(spill := spill);
    IdsStay(s, s2, h, h, 0);
    SpillCounts(s, spill, h);
    SameTaskOk(s, s2, h, 0);
    Moves(s, s2, h, h, 0);
  }

  lemma SpillCounts(s: State, spill: Spill, h: History)
    requires DirtyOk(s, h) && ClockOk(s) && LatchesOk(s)
    ensures DirtyOk(s.(spill := spill), h) && ClockOk(s.(spill := spill)) && LatchesOk(s.(spill := spill))
  {
    var s2 := s.(spill := spill);
    assert DirtyIds(s2) == DirtyIds(s) && Counting(s2) == Counting(s) && Straying(s2) == Straying(s);
    forall id | s2.capacity > 0 && id in s2.dir ensures Clocked(s2, id) {
      assert Clocked(s, id);
      if u :| Ticking(s, u, id) { assert Ticking(s2, u, id); }
    }
    LatchesStay(s, s2, 0);
  }

  /** The clock without its stale and repeated entries, in order. */
  method Retain(clock: seq<nat>, dir: map<nat, nat>) returns (r: seq<nat>)
    ensures Distinct(r)
    ensures forall id :: id in r <==> id in clock && id in dir
    ensures |r| <= |dir|
  {
    r := [];
    var seen: set<nat> := {};
    for i := 0 to |clock|
      invariant Distinct(r) && |r| == |seen|
      invariant forall id :: id in r <==> id in seen
      invariant forall id :: id in r <==> id in clock[..i] && id in dir
    {
      assert clock[..i + 1] == clock[..i] + [clock[i]];
      if clock[i] in dir && clock[i] !in seen {
        ghost var was := r;
        r := r + [clock[i]];
        seen := seen + {clock[i]};
        assert r[|was|] == clock[i];
        forall a, b | 0 <= a < b < |r| ensures r[a] != r[b] { assert was[a] in was; }
      }
    }
    assert clock[..|clock|] == clock;
    NoMore(seen, dir.Keys);
    assert |dir.Keys| == |dir|;
  }

  lemma {:induction false} NoMore(a: set<nat>, b: set<nat>)
    requires a <= b
    ensures |a| <= |b|
    ensures |a| == |b| ==> a == b
  {
    if a != {} {
      var x :| x in a;
      NoMore(a - {x}, b - {x});
    } else if b != {} {
      var y :| y in b;
      assert |b| == |b - {y}| + 1;
    }
  }

  // ----- sweeping

  /** A page no sweep under this policy can take: latched, or changed and passed by. */
  predicate Stuck(s: State, policy: Policy, latched: set<nat>, id: nat) {
    id in latched || (policy.Skip? && DirtyHere(s, id))
  }

  ghost predicate Seen(s: State, policy: Policy, latched: set<nat>, touched: set<nat>, id: nat) {
    id in s.dir && (Stuck(s, policy, latched, id) || s.dir[id] !in touched)
  }

  ghost predicate AllSeen(s: State, policy: Policy, latched: set<nat>, touched: set<nat>, q: seq<nat>) {
    forall i {:trigger q[i]} :: 0 <= i < |q| ==> Seen(s, policy, latched, touched, q[i])
  }

  ghost predicate AllStuck(s: State, policy: Policy, latched: set<nat>, q: seq<nat>) {
    policy.Fallback? || forall i {:trigger q[i]} :: 0 <= i < |q| ==> Stuck(s, policy, latched, q[i])
  }

  /** A sweep after `i` entries of a clock that held `n`: `rest` is still to be visited in this
      round and `back` was put back in it. A page put back in the first round has lost its second
      chance or is stuck; one put back in a later round is stuck. */
  ghost predicate Sweep(s: State, policy: Policy, latched: set<nat>, touched: set<nat>, rest: seq<nat>, back: seq<nat>,
                        round: nat, i: nat, n: nat) {
    && |rest| + |back| <= n
    && AllSeen(s, policy, latched, touched, back)
    && (round == 0 ==> i + |rest| == n)
    && (round == 1 ==> i + |rest| <= 2 * n)
    && (round >= 1 ==> AllSeen(s, policy, latched, touched, rest) && AllStuck(s, policy, latched, back))
    && (round >= 2 ==> AllStuck(s, policy, latched, rest))
  }

  lemma NextRound(s: State, policy: Policy, latched: set<nat>, touched: set<nat>, back: seq<nat>, round: nat, i: nat, n: nat)
    requires Sweep(s, policy, latched, touched, [], back, round, i, n)
    ensures Sweep(s, policy, latched, touched, back, [], round + 1, i, n)
  {
  }

  lemma TakeEntry(s: State, policy: Policy, latched: set<nat>, touched: set<nat>, rest: seq<nat>, back: seq<nat>, round: nat, i: nat, n: nat)
    requires rest != [] && Sweep(s, policy, latched, touched, rest, back, round, i, n)
    ensures Sweep(s, policy, latched, touched, rest[1..], back, round, i + 1, n)
    ensures round >= 1 ==> Seen(s, policy, latched, touched, rest[0])
  {
  }

  lemma PutBack(s: State, policy: Policy, latched: set<nat>, touched: set<nat>, touched2: set<nat>,
                rest: seq<nat>, back: seq<nat>, round: nat, i: nat, n: nat, id: nat)
    requires Sweep(s, policy, latched, touched, rest, back, round, i, n) && |rest| + |back| < n
    requires touched2 <= touched && Seen(s, policy, latched, touched2, id)
    requires round >= 1 && !policy.Fallback? ==> Stuck(s, policy, latched, id)
    ensures Sweep(s, policy, latched, touched2, rest, back + [id], round, i, n)
  {
  }

  ghost predicate Candidate(s: State, latched: set<nat>, touched: set<nat>, id: nat) {
    id in s.dir && id !in latched && s.dir[id] !in touched && DirtyHere(s, id)
  }

  /** Every resident page the clock named is still on it, or kept aside. */
  ghost predicate Covers(s: State, clock: seq<nat>, aside: Option<nat>) {
    forall id {:trigger id in clock} {:trigger id in s.clock} ::
      id in s.clock && id in s.dir ==> id in clock || aside == Some(id)
  }

  lemma CoversWithout(s: State, clock: seq<nat>, aside: Option<nat>)
    requires Covers(s, clock, aside) && clock != [] && clock[0] !in s.dir
    ensures Covers(s, clock[1..], aside)
  {
    assert clock == [clock[0]] + clock[1..];
  }

  lemma CoversTurned(s: State, clock: seq<nat>, aside: Option<nat>)
    requires Covers(s, clock, aside) && clock != []
    ensures Covers(s, clock[1..] + [clock[0]], aside)
    ensures aside.None? ==> Covers(s, clock[1..], Some(clock[0]))
    ensures aside.Some? ==> Covers(s, [aside.value] + clock[1..], Some(clock[0]))
  {
    assert clock == [clock[0]] + clock[1..];
  }

  /** A whole sweep that ended with the clock still full of pages has found each of them stuck. */
  lemma SweptAll(s: State, policy: Policy, latched: set<nat>, touched: set<nat>, clock: seq<nat>, rest: seq<nat>, back: seq<nat>,
                 round: nat, i: nat, n: nat)
    requires Sweep(s, policy, latched, touched, rest, back, round, i, n) && clock == rest + back
    requires Covers(s, clock, None) && (clock == [] || i > 2 * n) && !policy.Fallback?
    ensures forall id :: id in s.clock && id in s.dir ==> Stuck(s, policy, latched, id)
  {
    forall id | id in s.clock && id in s.dir ensures Stuck(s, policy, latched, id) {
      assert id in clock;
      assert round >= 2;
      if id in rest { assert Stuck(s, policy, latched, id); }
    }
  }

  /** What a sweep of at most `limit` entries promises: whoever is not picked stays on the clock; a
      picked page is resident, not latched, and its second chance is used up; a whole sweep that
      finds none has found every page stuck. */
  ghost predicate Sweeps(s: State, limit: nat, policy: Policy, latched: set<nat>, clock: seq<nat>, touched: set<nat>, v: Option<Victim>) {
    && touched <= s.touched
    && (v.Some? ==> v.value.id in s.dir && v.value.id !in latched && s.dir[v.value.id] !in touched)
    && (v.Some? ==> v.value.spill == DirtyHere(s, v.value.id) && !(policy.Skip? && v.value.spill))
    && Covers(s, clock, if v.Some? then Some(v.value.id) else None)
    && (v.None? && !policy.Fallback? && limit > 2 * |s.clock| ==>
          forall id :: id in s.clock && id in s.dir ==> Stuck(s, policy, latched, id))
  }

  /** Sweep the clock for a frame to evict. */
  method PickVictim(s: State, limit: nat, policy: Policy, latched: set<nat>)
    returns (clock: seq<nat>, touched: set<nat>, v: Option<Victim>)
    ensures Sweeps(s, limit, policy, latched, clock, touched, v)
  {
    hide Sweep, Covers;
    clock, touched, v := s.clock, s.touched, None;
    var fallback: Option<nat> := None;
    ghost var n, round, rest, back := |s.clock|, 0, s.clock, [];
    var i: nat := 0;
    SweepStarts(s, policy, latched);
    while i < limit && clock != []
      invariant i <= limit
      invariant touched <= s.touched
      invariant fallback.Some? ==> policy.Fallback? && Candidate(s, latched, touched, fallback.value)
      invariant clock == rest + back
      invariant Sweep(s, policy, latched, touched, rest, back, round, i, n)
      invariant Covers(s, clock, fallback)
    {
      if rest == [] {
        NextRound(s, policy, latched, touched, back, round, i, n);
        rest, back, round := back, [], round + 1;
      }
      TakeEntry(s, policy, latched, touched, rest, back, round, i, n);
      SweepRoom(s, policy, latched, touched, rest, back, round, i, n);
      var id := clock[0];
      if id !in s.dir { CoversWithout(s, clock, fallback); } else { CoversTurned(s, clock, fallback); }
      clock, rest, i := clock[1..], rest[1..], i + 1;
      if id in s.dir {
        var dirty := DirtyHere(s, id);
        if (dirty && policy.Skip?) || s.dir[id] in touched || id in latched {
          ghost var was := touched;
          if !(dirty && policy.Skip?) { touched := touched - {s.dir[id]}; }
          PutBack(s, policy, latched, was, touched, rest, back, round, i, n, id);
          clock, back := clock + [id], back + [id];
        } else if !dirty || policy.Take? {
          if fallback.Some? { clock := [fallback.value] + clock; }
          v := Some(Victim(id, dirty));
          return;
        } else if fallback.None? {
          fallback := Some(id);
        } else {
          PutBack(s, policy, latched, touched, touched, rest, back, round, i, n, id);
          clock, back := clock + [id], back + [id];
        }
      }
    }
    if fallback.Some? {
      v := Some(Victim(fallback.value, true));
    } else if !policy.Fallback? && limit > 2 * n {
      SweptAll(s, policy, latched, touched, clock, rest, back, round, i, n);
    }
  }

  lemma SweepStarts(s: State, policy: Policy, latched: set<nat>)
    ensures Sweep(s, policy, latched, s.touched, s.clock, [], 0, 0, |s.clock|)
    ensures Covers(s, s.clock, None)
  {
  }

  lemma SweepRoom(s: State, policy: Policy, latched: set<nat>, touched: set<nat>, rest: seq<nat>, back: seq<nat>, round: nat, i: nat, n: nat)
    requires rest != [] && Sweep(s, policy, latched, touched, rest, back, round, i, n)
    ensures |rest[1..]| + |back| < n
  {
  }
}
