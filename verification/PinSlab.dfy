/** The fixed slab of GC-root slots: a rotating claim cursor over an array where 0 means empty. */
module PinSlabs {
  import opened Options
  import opened Scan

  /** The slots an insert may claim: the empty ones its scan meets, first met first. */
  ghost predicate FirstFree(slots: seq<nat>, start: nat, k: nat) {
    && k < |slots| && slots[Probe(start, k, |slots|)] == 0
    && forall j :: 0 <= j < k ==> slots[Probe(start, j, |slots|)] != 0
  }

  /** The scan from `start` meets no empty slot. */
  ghost predicate NoneFree(slots: seq<nat>, start: nat) {
    forall k :: 0 <= k < |slots| ==> slots[Probe(start, k, |slots|)] != 0
  }

  class PinSlab {
    const slots: array<nat>
    var cursor: nat

    constructor (capacity: nat)
      ensures fresh(slots) && slots.Length == capacity && cursor == 0
      ensures forall i :: 0 <= i < capacity ==> slots[i] == 0
    {
      slots := new nat[capacity](_ => 0);
      cursor := 0;
    }

    /** Root `value` in the first empty slot of the scan; None when the scan meets none. */
    method Insert(value: nat) returns (index: Option<nat>)
      requires value != 0
      modifies this, slots
      ensures cursor == (old(cursor) + 1) % WORD
      ensures index.None? ==> slots[..] == old(slots[..]) && NoneFree(slots[..], old(cursor))
      ensures index.Some? ==>
        && index.value < slots.Length
        && (exists k: nat ::
              FirstFree(old(slots[..]), old(cursor), k) && index.value == Probe(old(cursor), k, slots.Length))
        && slots[..] == old(slots[..])[index.value := value]
    {
      var start := cursor;
      cursor := (cursor + 1) % WORD;
      for offset := 0 to slots.Length
        invariant slots[..] == old(slots[..]) && cursor == (start + 1) % WORD
        invariant forall j :: 0 <= j < offset ==> slots[Probe(start, j, slots.Length)] != 0
      {
        var i := Probe(start, offset, slots.Length);
        if slots[i] == 0 {
          assert FirstFree(old(slots[..]), start, offset);
          slots[i] := value;
          return Some(i);
        }
      }
      return None;
    }

    method Release(index: nat)
      requires index < slots.Length
      modifies slots
      ensures slots[..] == old(slots[..])[index := 0]
    {
      slots[index] := 0;
    }
  }

  /** A scan that meets an empty slot meets a first one. */
  lemma {:induction false} MeetsFirst(slots: seq<nat>, start: nat, k: nat) returns (first: nat)
    requires k < |slots| && slots[Probe(start, k, |slots|)] == 0
    ensures FirstFree(slots, start, first)
    decreases k
  {
    if j :| 0 <= j < k && slots[Probe(start, j, |slots|)] == 0 {
      first := MeetsFirst(slots, start, j);
    } else {
      first := k;
    }
  }

  /** Away from a cursor wrap (or with a capacity dividing the word size) an insert fails only on a full
      slab; otherwise some slab with an empty slot makes it fail. */
  lemma FailsOnlyWhenFull(capacity: nat, start: nat)
    requires 0 < capacity <= WORD && start < WORD
    ensures (start + capacity <= WORD || WORD % capacity == 0) <==>
            (forall slots: seq<nat> :: |slots| == capacity && NoneFree(slots, start) ==> 0 !in slots)
  {
    CoversExactly(start, capacity);
    if Covers(start, capacity) {
      forall slots: seq<nat> | |slots| == capacity && NoneFree(slots, start) ensures 0 !in slots {
        forall i | 0 <= i < capacity ensures slots[i] != 0 {
          assert Reaches(start, capacity, i);
        }
      }
    } else {
      var missed: nat :| missed < capacity && !Reaches(start, capacity, missed);
      var slots: seq<nat> := seq(capacity, j => if j == missed then 0 else 1);
      assert slots[missed] == 0;
      forall k | 0 <= k < capacity ensures slots[Probe(start, k, capacity)] != 0 {
        assert Probe(start, k, capacity) != missed;
      }
      assert NoneFree(slots, start);
    }
  }
}
