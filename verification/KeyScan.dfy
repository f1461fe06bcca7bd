/** What a range scan delivers, and how it resumes. */
module KeyScan {
  import opened Bytes
  import opened KeyOrder
  import opened KeyNode

  datatype Bound = Included(key: seq<byte>) | Excluded(key: seq<byte>) | Unbounded

  predicate BelowLo(lo: Bound, key: seq<byte>) {
    match lo
    case Included(b) => KeyLess(key, b)
    case Excluded(b) => KeyLess(key, b) || key == b
    case Unbounded => false
  }

  predicate AboveHi(hi: Bound, key: seq<byte>) {
    match hi
    case Included(b) => KeyLess(b, key)
    case Excluded(b) => KeyLess(b, key) || key == b
    case Unbounded => false
  }

  /** Where a forward scan begins: at a bound on the key, or just after a position. */
  datatype Start = FromKey(lo: Bound) | AfterPos(pos: Pos)

  predicate Skips(start: Start, p: Pos) {
    match start
    case FromKey(lo) => BelowLo(lo, p.key)
    case AfterPos(q) => !Less(q, p)
  }

  predicate Wanted(start: Start, hi: Bound, p: Pos) { !Skips(start, p) && !AboveHi(hi, p.key) }

  /** The entries in range, in order. */
  ghost function Selected(es: seq<Entry>, start: Start, hi: Bound): seq<Entry> {
    if es == [] then []
    else
      var last := es[|es| - 1];
      Selected(es[..|es| - 1], start, hi) + if Wanted(start, hi, last.pos) then [last] else []
  }

  ghost function Reversed(es: seq<Entry>): seq<Entry> {
    if es == [] then [] else [es[|es| - 1]] + Reversed(es[..|es| - 1])
  }

  lemma {:induction false} SelectedJoin(a: seq<Entry>, b: seq<Entry>, start: Start, hi: Bound)
    ensures Selected(a + b, start, hi) == Selected(a, start, hi) + Selected(b, start, hi)
    decreases |b|
  {
    hide Wanted;
    if b == [] {
      assert a + b == a;
    } else {
      var front, last := b[..|b| - 1], b[|b| - 1];
      SelectedJoin(a, front, start, hi);
      assert (a + b)[..|a + b| - 1] == a + front && (a + b)[|a + b| - 1] == last;
      var x, y, z := Selected(a, start, hi), Selected(front, start, hi), if Wanted(start, hi, last.pos) then [last] else [];
      assert x + (y + z) == (x + y) + z;
    }
  }

  lemma {:induction false} SelectedNone(es: seq<Entry>, start: Start, hi: Bound)
    requires forall i {:trigger es[i]} :: 0 <= i < |es| ==> !Wanted(start, hi, es[i].pos)
    ensures Selected(es, start, hi) == []
    decreases |es|
  {
    if es != [] {
      SelectedNone(es[..|es| - 1], start, hi);
    }
  }

  lemma {:induction false} SelectedOne(e: Entry, start: Start, hi: Bound)
    ensures Selected([e], start, hi) == if Wanted(start, hi, e.pos) then [e] else []
  {
    assert [e][..0] == [];
  }

  lemma {:induction false} ReversedJoin(a: seq<Entry>, b: seq<Entry>)
    ensures Reversed(a + b) == Reversed(b) + Reversed(a)
    decreases |b|
  {
    if b == [] {
      assert a + b == a;
    } else {
      ReversedJoin(a, b[..|b| - 1]);
      assert (a + b)[..|a + b| - 1] == a + b[..|b| - 1];
    }
  }

  /** Past the upper bound there is nothing more; before the lower bound there is nothing yet. */
  lemma AboveStays(es: seq<Entry>, i: nat, j: nat, hi: Bound)
    requires Sorted(es) && i <= j < |es| && AboveHi(hi, es[i].pos.key)
    ensures AboveHi(hi, es[j].pos.key)
  {
    if i < j {
      var a, b := es[i].pos, es[j].pos;
      assert Less(a, b);
      if KeyLess(a.key, b.key) && KeyLess(hi.key, a.key) { KeyTrans(hi.key, a.key, b.key); }
    }
  }

  lemma BelowStays(es: seq<Entry>, i: nat, j: nat, lo: Bound)
    requires Sorted(es) && i <= j < |es| && BelowLo(lo, es[j].pos.key)
    ensures BelowLo(lo, es[i].pos.key)
  {
    if i < j {
      var a, b := es[i].pos, es[j].pos;
      assert Less(a, b);
      if KeyLess(a.key, b.key) && KeyLess(b.key, lo.key) { KeyTrans(a.key, b.key, lo.key); }
    }
  }

  // The range, in the order of keys --------------------------------------------------------------

  /** The position is in the range: not below the start and not past the upper bound. */
  ghost predicate InRange(start: Start, hi: Bound, p: Pos) {
    && (match start
        case FromKey(Included(b)) => !KeyLess(p.key, b)
        case FromKey(Excluded(b)) => KeyLess(b, p.key)
        case FromKey(Unbounded) => true
        case AfterPos(q) => Less(q, p))
    && (match hi
        case Included(b) => !KeyLess(b, p.key)
        case Excluded(b) => KeyLess(p.key, b)
        case Unbounded => true)
  }

  lemma WantedIsInRange(start: Start, hi: Bound, p: Pos)
    ensures Wanted(start, hi, p) <==> InRange(start, hi, p)
  {
    if start.FromKey? && !start.lo.Unbounded? { KeyTotal(p.key, start.lo.key); }
    if !hi.Unbounded? { KeyTotal(p.key, hi.key); }
  }

  lemma {:induction false} SelectedHas(es: seq<Entry>, start: Start, hi: Bound, e: Entry)
    ensures e in Selected(es, start, hi) <==> e in es && Wanted(start, hi, e.pos)
    decreases |es|
  {
    hide Wanted;
    if es != [] {
      SelectedHas(es[..|es| - 1], start, hi, e);
      assert es == es[..|es| - 1] + [es[|es| - 1]];
    }
  }

  lemma {:induction false} SelectedSorted(es: seq<Entry>, start: Start, hi: Bound)
    requires Sorted(es)
    ensures Sorted(Selected(es, start, hi))
    decreases |es|
  {
    hide Wanted;
    if es != [] {
      var front := es[..|es| - 1];
      SelectedSorted(front, start, hi);
      var kept := Selected(front, start, hi);
      forall i | 0 <= i < |kept| ensures Less(kept[i].pos, es[|es| - 1].pos) {
        SelectedHas(front, start, hi, kept[i]);
      }
    }
  }

  /** What a scan selects of sorted entries, said with the bounds and the order alone. */
  lemma SelectedExact(es: seq<Entry>, start: Start, hi: Bound, e: Entry)
    requires Sorted(es)
    ensures e in Selected(es, start, hi) <==>
              && e in es
              && (start == FromKey(Unbounded)
                  || (start.FromKey? && start.lo.Included? && !KeyLess(e.pos.key, start.lo.key))
                  || (start.FromKey? && start.lo.Excluded? && KeyLess(start.lo.key, e.pos.key))
                  || (start.AfterPos? && Less(start.pos, e.pos)))
              && (hi.Unbounded?
                  || (hi.Included? && !KeyLess(hi.key, e.pos.key))
                  || (hi.Excluded? && KeyLess(e.pos.key, hi.key)))
    ensures Sorted(Selected(es, start, hi))
  {
    hide Selected, Wanted;
    SelectedHas(es, start, hi, e);
    WantedIsInRange(start, hi, e.pos);
    SelectedSorted(es, start, hi);
  }

  /** What was delivered before a scan stopped, in the order of the scan: entries of the table in
      range, each after the one before, and no entry of the range left out on the way. */
  ghost predicate Delivers(table: Table, start: Start, hi: Bound, out: seq<Entry>, done: bool) {
    && Sorted(out)
    && (forall i {:trigger out[i]} :: 0 <= i < |out| ==>
          out[i].pos in table && table[out[i].pos] == out[i].value && InRange(start, hi, out[i].pos))
    && (forall p {:trigger p in table} :: p in table && InRange(start, hi, p) ==>
          (done || (out != [] && !Less(out[|out| - 1].pos, p))) ==> Entry(p, table[p]) in out)
  }

  lemma PrefixDelivers(es: seq<Entry>, start: Start, hi: Bound, out: seq<Entry>, done: bool)
    requires Sorted(es) && out <= Selected(es, start, hi) && (done ==> out == Selected(es, start, hi))
    ensures Delivers(ToMap(es), start, hi, out, done)
  {
    hide Selected, Wanted, InRange, ToMap;
    var full := Selected(es, start, hi);
    SelectedSorted(es, start, hi);
    forall i | 0 <= i < |out|
      ensures out[i].pos in ToMap(es) && ToMap(es)[out[i].pos] == out[i].value && InRange(start, hi, out[i].pos)
    {
      SelectedHas(es, start, hi, full[i]);
      WantedIsInRange(start, hi, full[i].pos);
      ToMapHas(es, full[i].pos);
    }
    forall p | p in ToMap(es) && InRange(start, hi, p) && (done || (out != [] && !Less(out[|out| - 1].pos, p)))
      ensures Entry(p, ToMap(es)[p]) in out
    {
      ToMapHas(es, p);
      var e := Entry(p, ToMap(es)[p]);
      SelectedHas(es, start, hi, e);
      WantedIsInRange(start, hi, p);
      var k :| 0 <= k < |full| && full[k] == e;
      assert k < |out|;
      assert out[k] == e;
    }
  }

  /** The same for a descending scan. */
  ghost predicate DeliversBack(table: Table, lo: Bound, hi: Bound, out: seq<Entry>, done: bool) {
    && (forall i, j {:trigger out[i], out[j]} :: 0 <= i < j < |out| ==> Less(out[j].pos, out[i].pos))
    && (forall i {:trigger out[i]} :: 0 <= i < |out| ==>
          out[i].pos in table && table[out[i].pos] == out[i].value && InRange(FromKey(lo), hi, out[i].pos))
    && (forall p {:trigger p in table} :: p in table && InRange(FromKey(lo), hi, p) ==>
          (done || (out != [] && !Less(p, out[|out| - 1].pos))) ==> Entry(p, table[p]) in out)
  }

  lemma {:induction false} ReversedAt(es: seq<Entry>, i: nat)
    requires i < |es|
    ensures |Reversed(es)| == |es| && Reversed(es)[i] == es[|es| - 1 - i]
    decreases |es|
  {
    if i > 0 { ReversedAt(es[..|es| - 1], i - 1); }
    else if |es| > 1 { ReversedAt(es[..|es| - 1], 0); }
  }

  lemma {:induction false} ReversedLength(es: seq<Entry>)
    ensures |Reversed(es)| == |es|
  {
    if es != [] { ReversedAt(es, 0); }
  }

  lemma PrefixDeliversBack(es: seq<Entry>, lo: Bound, hi: Bound, out: seq<Entry>, done: bool)
    requires Sorted(es) && out <= Reversed(Selected(es, FromKey(lo), hi)) && (done ==> out == Reversed(Selected(es, FromKey(lo), hi)))
    ensures DeliversBack(ToMap(es), lo, hi, out, done)
  {
    hide Selected, Wanted, InRange, ToMap, Reversed;
    var start := FromKey(lo);
    var full := Selected(es, start, hi);
    var n := |full|;
    SelectedSorted(es, start, hi);
    ReversedLength(full);
    forall i | 0 <= i < |out| ensures out[i] == full[n - 1 - i] { ReversedAt(full, i); }
    forall i | 0 <= i < |out|
      ensures out[i].pos in ToMap(es) && ToMap(es)[out[i].pos] == out[i].value && InRange(start, hi, out[i].pos)
    {
      SelectedHas(es, start, hi, full[n - 1 - i]);
      WantedIsInRange(start, hi, out[i].pos);
      ToMapHas(es, out[i].pos);
    }
    forall p | p in ToMap(es) && InRange(start, hi, p) && (done || (out != [] && !Less(p, out[|out| - 1].pos)))
      ensures Entry(p, ToMap(es)[p]) in out
    {
      ToMapHas(es, p);
      var e := Entry(p, ToMap(es)[p]);
      SelectedHas(es, start, hi, e);
      WantedIsInRange(start, hi, p);
      var k :| 0 <= k < n && full[k] == e;
      assert n - 1 - k < |out|;
      assert out[n - 1 - k] == e;
    }
  }

  // Resuming -------------------------------------------------------------------------------------

  /** The scan's last delivery splits what it would have delivered: entries up to it, and those a
      scan started just after it delivers. */
  lemma {:induction false} ResumeSplit(es: seq<Entry>, start: Start, hi: Bound, k: nat)
    requires Sorted(es) && k < |es| && Wanted(start, hi, es[k].pos)
    ensures Selected(es, start, hi) == Selected(es[..k + 1], start, hi) + Selected(es[k + 1..], start, hi)
    ensures Selected(es[k + 1..], start, hi) == Selected(es, AfterPos(es[k].pos), hi)
    ensures Selected(es[..k + 1], start, hi) != [] && Selected(es[..k + 1], start, hi)[|Selected(es[..k + 1], start, hi)| - 1] == es[k]
  {
    hide Selected, Wanted;
    var a, b, after := es[..k + 1], es[k + 1..], AfterPos(es[k].pos);
    assert es == a + b;
    SelectedJoin(a, b, start, hi);
    SelectedJoin(a, b, after, hi);
    UpToIsBehind(es, k, hi);
    SelectedNone(a, after, hi);
    SameWanted(es, start, hi, k);
    SelectedSame(b, start, after, hi);
    assert a == es[..k] + [es[k]];
    SelectedJoin(es[..k], [es[k]], start, hi);
    SelectedOne(es[k], start, hi);
  }

  lemma UpToIsBehind(es: seq<Entry>, k: nat, hi: Bound)
    requires Sorted(es) && k < |es|
    ensures forall i {:trigger es[..k + 1][i]} :: 0 <= i < k + 1 ==> !Wanted(AfterPos(es[k].pos), hi, es[..k + 1][i].pos)
  {
    var a := es[..k + 1];
    forall i | 0 <= i < |a| ensures !Wanted(AfterPos(es[k].pos), hi, a[i].pos) {
      Total(es[k].pos, es[i].pos);
    }
  }

  /** After a wanted entry, being past the start means being past that entry. */
  lemma SameWanted(es: seq<Entry>, start: Start, hi: Bound, k: nat)
    requires Sorted(es) && k < |es| && Wanted(start, hi, es[k].pos)
    ensures forall i {:trigger es[i]} :: k < i < |es| ==>
              (Wanted(start, hi, es[i].pos) <==> Wanted(AfterPos(es[k].pos), hi, es[i].pos))
  {
    forall i | k < i < |es| ensures !Skips(start, es[i].pos) && !Skips(AfterPos(es[k].pos), es[i].pos) {
      match start
      case FromKey(lo) => if BelowLo(lo, es[i].pos.key) { BelowStays(es, k, i, lo); }
      case AfterPos(q) => Trans(q, es[k].pos, es[i].pos);
    }
  }

  lemma {:induction false} SelectedSame(es: seq<Entry>, s: Start, t: Start, hi: Bound)
    requires forall i {:trigger es[i]} :: 0 <= i < |es| ==> (Wanted(s, hi, es[i].pos) <==> Wanted(t, hi, es[i].pos))
    ensures Selected(es, s, hi) == Selected(es, t, hi)
    decreases |es|
  {
    if es != [] {
      SelectedSame(es[..|es| - 1], s, t, hi);
    }
  }

  /** Each delivered entry is one of the index's, at some place. */
  lemma {:induction false} Delivered(es: seq<Entry>, start: Start, hi: Bound, n: nat) returns (k: nat)
    requires n < |Selected(es, start, hi)|
    ensures k < |es| && es[k] == Selected(es, start, hi)[n] && Wanted(start, hi, es[k].pos)
    ensures Selected(es[..k + 1], start, hi) == Selected(es, start, hi)[..n + 1]
    decreases |es|
  {
    var m := |es| - 1;
    var front := Selected(es[..m], start, hi);
    if n < |front| {
      k := Delivered(es[..m], start, hi, n);
      assert es[..m][..k + 1] == es[..k + 1];
    } else {
      k := m;
      assert es[..m + 1] == es;
    }
  }

  /** Stopping anywhere and resuming from the last entry delivered equals the whole scan. */
  lemma ResumeExact(es: seq<Entry>, start: Start, hi: Bound, n: nat)
    requires Sorted(es) && 0 < n <= |Selected(es, start, hi)|
    ensures var full := Selected(es, start, hi);
            full == full[..n] + Selected(es, AfterPos(full[n - 1].pos), hi)
  {
    var full := Selected(es, start, hi);
    var k := Delivered(es, start, hi, n - 1);
    ResumeSplit(es, start, hi, k);
  }
}
