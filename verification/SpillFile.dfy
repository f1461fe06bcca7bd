/** The spill: changed pages that left memory, each in a slot of a scratch file under a
    generation of its own. */
module SpillFile {
  import opened Distinctness
  import opened CacheState

  function Admits(p: Spill, id: nat, source: Source): bool {
    match source
    case Fresh => true
    case Image => id !in p.slots
    case Spilled(gen) => id in p.slots && p.slots[id].gen == gen
  }

  /** The slot a copy of `id` is written to: its own, the last one freed, or a new one. */
  function SlotFor(p: Spill, id: nat): nat {
    if id in p.slots then p.slots[id].at
    else if p.free != [] then p.free[|p.free| - 1]
    else p.next
  }

  /** The spill with that slot taken. */
  function TakeSlot(p: Spill, id: nat): Spill {
    if id in p.slots then p
    else if p.free != [] then p.(free := p.free[..|p.free| - 1])
    else p.(next := p.next + 1)
  }

  /** A copy written. */
  function Stored(p: Spill, id: nat, page: Page): Spill {
    TakeSlot(p, id).(
      file := p.file[SlotFor(p, id) := page],
      gen := p.gen + 1,
      slots := p.slots[id := Slot(SlotFor(p, id), p.gen + 1)],
      failing := false)
  }

  /** A write that failed: the slot taken for it goes back. */
  function NotStored(p: Spill, id: nat): Spill {
    if id in p.slots then p.(failing := true)
    else TakeSlot(p, id).(free := TakeSlot(p, id).free + [SlotFor(p, id)], failing := true)
  }

  function Forget(p: Spill, id: nat): Spill {
    if id in p.slots then p.(slots := p.slots - {id}, free := p.free + [p.slots[id].at]) else p
  }

  function Clear(p: Spill): Spill {
    p.(slots := map[], free := [], next := 0, file := map[])
  }

  /** Taking a slot takes exactly one, which no page uses, from the free ones or from the end. */
  lemma TakeSlotOk(p: Spill, id: nat)
    requires SpillOk(p)
    ensures Distinct(TakeSlot(p, id).free) && SlotFor(p, id) < TakeSlot(p, id).next
    ensures forall k :: k in TakeSlot(p, id).free <==> k in p.free && k != SlotFor(p, id)
    ensures SlotFor(p, id) <= p.next && TakeSlot(p, id).on == p.on
    ensures TakeSlot(p, id).next == p.next + (if SlotFor(p, id) == p.next then 1 else 0)
    ensures forall a :: a in p.slots && a != id ==> p.slots[a].at != SlotFor(p, id)
    ensures if id in p.slots then SlotFor(p, id) == p.slots[id].at
            else if p.free != [] then SlotFor(p, id) in p.free else SlotFor(p, id) == p.next
  {
    assert SlotOk(p, id);
    forall a | a in p.slots ensures SlotOk(p, a) {}
    if id in p.slots {
    } else if p.free != [] {
      var last := |p.free| - 1;
      assert p.free[last] in p.free;
      forall k ensures k in p.free[..last] <==> k in p.free && k != p.free[last] {
        if k in p.free && k != p.free[last] {
          var i :| 0 <= i < |p.free| && p.free[i] == k;
          assert p.free[..last][i] == k;
        }
      }
    }
  }

  lemma Slots(p: Spill, k: nat) returns (id: nat)
    requires SlotTaken(p, k) && k !in p.free
    ensures UsedBy(p, k, id)
  {
    id :| UsedBy(p, k, id);
  }

  lemma ForgetOk(p: Spill, id: nat)
    requires SpillOk(p)
    ensures SpillOk(Forget(p, id))
  {
    if id in p.slots {
      var q := Forget(p, id);
      assert SlotOk(p, id);
      assert q.free[|p.free|] == p.slots[id].at;
      forall a ensures SlotOk(q, a) { assert SlotOk(p, a); }
      forall k: nat | k < q.next ensures SlotTaken(q, k) {
        assert SlotTaken(p, k);
        if k in p.free { assert k in q.free; }
        else {
          var a := Slots(p, k);
          if a != id { assert UsedBy(q, k, a); }
        }
      }
    }
  }

  lemma StoredOk(p: Spill, id: nat, page: Page)
    requires SpillOk(p) && p.on
    ensures SpillOk(Stored(p, id, page))
    ensures SpillCopy(Stored(p, id, page), id) == page
    ensures forall a :: a in p.slots && a != id ==> SpillCopy(Stored(p, id, page), a) == SpillCopy(p, a)
  {
    hide TakeSlot, SlotFor;
    var q := Stored(p, id, page);
    var k0 := SlotFor(p, id);
    TakeSlotOk(p, id);
    forall a ensures SlotOk(q, a) { assert SlotOk(p, a); }
    forall k: nat | k < q.next ensures SlotTaken(q, k) {
      if k == k0 { assert UsedBy(q, k, id); }
      else {
        assert SlotTaken(p, k);
        if k in p.free { assert k in q.free; }
        else {
          var a := Slots(p, k);
          SlotMoves(p, id, k, a);
          assert UsedBy(q, k, a);
        }
      }
    }
    forall a | a in p.slots && a != id ensures SpillCopy(q, a) == SpillCopy(p, a) { assert SlotOk(p, a); }
  }

  lemma SlotMoves(p: Spill, id: nat, k: nat, a: nat)
    requires UsedBy(p, k, a) && k != SlotFor(p, id)
    ensures a != id
  {
  }

  lemma NotStoredOk(p: Spill, id: nat)
    requires SpillOk(p)
    ensures SpillOk(NotStored(p, id))
    ensures NotStored(p, id).slots == p.slots && NotStored(p, id).file == p.file && NotStored(p, id).gen == p.gen
  {
    var q := NotStored(p, id);
    TakeSlotOk(p, id);
    if id !in p.slots { SlotFresh(p, id); }
    NotStoredFree(p, id);
    forall a ensures SlotOk(q, a) { assert SlotOk(p, a); }
    forall k: nat | k < q.next ensures SlotTaken(q, k) {
      if k != SlotFor(p, id) || id in p.slots {
        assert SlotTaken(p, k);
        if k !in p.free {
          var a := Slots(p, k);
          assert UsedBy(q, k, a);
        }
      }
    }
  }

  lemma NotStoredFree(p: Spill, id: nat)
    requires SpillOk(p)
    ensures Distinct(NotStored(p, id).free)
    ensures forall k :: k in NotStored(p, id).free <==> k in p.free || (id !in p.slots && k == SlotFor(p, id))
  {
    hide TakeSlot, SlotFor;
    TakeSlotOk(p, id);
    var q := NotStored(p, id);
    if id !in p.slots {
      assert q.free == TakeSlot(p, id).free + [SlotFor(p, id)];
      assert q.free[|q.free| - 1] == SlotFor(p, id);
      var was := TakeSlot(p, id).free;
      forall i, j | 0 <= i < j < |q.free| ensures q.free[i] != q.free[j] { assert was[i] in was; }
    }
  }

  lemma SlotFresh(p: Spill, id: nat)
    requires SpillOk(p) && id !in p.slots
    ensures forall a :: a in p.slots ==> p.slots[a].at != SlotFor(p, id)
  {
    forall a | a in p.slots ensures p.slots[a].at != SlotFor(p, id) { assert SlotOk(p, a); }
  }
}
