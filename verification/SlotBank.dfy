/** Dispatch slots for a worker pool: fresh ones from the native registry, or recycled ones. Which free
    slot is recycled does not matter to anything proved here, so the bank may pick any. */
module SlotBanks {

  type Slot = nat

  /** The registered slots are exactly the free ones and the ones out, and no more were ever registered
      than were out at once. */
  ghost predicate BankOk(free: set<Slot>, out: set<Slot>, registered: nat, peak: nat) {
    && free !! out && (forall i: Slot :: i in free || i in out <==> i < registered)
    && |free| + |out| == registered == peak
  }

  class SlotBank {
    var free: set<Slot>
    var registered: nat            // size of the native slot table
    ghost var out: set<Slot>       // handed out and not returned
    ghost var peak: nat            // most slots ever out at once

    ghost predicate Valid()
      reads this
    {
      BankOk(free, out, registered, peak)
    }

    constructor ()
      ensures Valid() && registered == 0 && out == {} && free == {}
    {
      free, registered, out, peak := {}, 0, {}, 0;
    }

    /** A recycled slot if there is one (reset for its next occupant), else a fresh one. */
    method Claim() returns (id: Slot)
      requires Valid()
      modifies this
      ensures Valid() && id !in old(out) && out == old(out) + {id}
      ensures registered == old(registered) + if old(free) == {} then 1 else 0
    {
      if free == {} {
        id := registered;
        registered := registered + 1;
      } else {
        id :| id in free;
        assert id in free + out;
        free := free - {id};
      }
      out := out + {id};
      peak := if |out| > peak then |out| else peak;
    }

    method Release(ids: set<Slot>)
      requires Valid() && ids <= out
      modifies this
      ensures Valid() && out == old(out) - ids && registered == old(registered)
    {
      assert free + out == (free + ids) + (out - ids);
      free := free + ids;
      out := out - ids;
    }
  }
}
