/** Who holds which slots: a table by holder and its inverse by slot. */
module SlotTables {
  import opened SlotBanks

  predicate Holds(table: map<nat, set<Slot>>, g: nat, id: Slot) {
    g in table && id in table[g]
  }

  predicate Points(inverse: map<Slot, nat>, id: Slot, g: nat) {
    id in inverse && inverse[id] == g
  }

  /** `inverse` inverts the table: so no slot has two holders. */
  ghost predicate TableOk(table: map<nat, set<Slot>>, inverse: map<Slot, nat>) {
    forall g: nat, id: Slot :: Holds(table, g, id) <==> Points(inverse, id, g)
  }

  lemma OneHolder(table: map<nat, set<Slot>>, inverse: map<Slot, nat>, g: nat, h: nat, id: Slot)
    requires TableOk(table, inverse) && Holds(table, g, id) && Holds(table, h, id)
    ensures g == h
  {
    assert Points(inverse, id, g) && Points(inverse, id, h);
  }

  lemma Apart(table: map<nat, set<Slot>>, inverse: map<Slot, nat>, g: nat, h: nat)
    requires TableOk(table, inverse) && g in table && h in table && g != h
    ensures table[g] !! table[h]
  {
    forall id | id in table[g] ensures id !in table[h] {
      assert Holds(table, g, id);
      if id in table[h] {
        OneHolder(table, inverse, g, h, id);
      }
    }
  }

  lemma TableNew(table: map<nat, set<Slot>>, inverse: map<Slot, nat>, index: nat)
    requires TableOk(table, inverse) && index !in table
    ensures TableOk(table[index := {}], inverse)
  {
    forall g: nat, id: Slot ensures Holds(table[index := {}], g, id) <==> Points(inverse, id, g) {
      assert Holds(table, g, id) <==> Points(inverse, id, g);
    }
  }

  lemma TableAdd(table: map<nat, set<Slot>>, inverse: map<Slot, nat>, index: nat, id: Slot)
    requires TableOk(table, inverse) && index in table && id !in inverse
    ensures TableOk(table[index := table[index] + {id}], inverse[id := index]) && id !in table[index]
  {
    assert !Points(inverse, id, index);
    assert !Holds(table, index, id);
    var more, back := table[index := table[index] + {id}], inverse[id := index];
    forall g: nat, k: Slot ensures Holds(more, g, k) <==> Points(back, k, g) {
      assert Holds(table, g, k) <==> Points(inverse, k, g);
    }
  }

  lemma TableRemove(table: map<nat, set<Slot>>, inverse: map<Slot, nat>, index: nat)
    requires TableOk(table, inverse) && index in table
    ensures TableOk(table - {index}, inverse - table[index]) && table[index] <= inverse.Keys
  {
    var less, back := table - {index}, inverse - table[index];
    forall g: nat, k: Slot ensures Holds(less, g, k) <==> Points(back, k, g) {
      assert Holds(table, g, k) <==> Points(inverse, k, g);
      assert Holds(table, index, k) <==> Points(inverse, k, index);
    }
    forall k | k in table[index] ensures k in inverse {
      assert Holds(table, index, k);
    }
  }

  /** When holders leave a table and the others stay as they were, the slots that go are exactly theirs. */
  lemma TableShrunk(table: map<nat, set<Slot>>, inverse: map<Slot, nat>, less: map<nat, set<Slot>>, back: map<Slot,
                    nat>, id: Slot)
    requires TableOk(table, inverse) && TableOk(less, back) && id in inverse
    requires forall g :: g in less ==> g in table && less[g] == table[g]
    ensures id in back <==> inverse[id] in less
  {
    var g := inverse[id];
    assert Points(inverse, id, g);
    assert Holds(table, g, id);
    if g in less {
      assert Holds(less, g, id);
    }
    if id in back {
      assert Points(back, id, back[id]);
      assert Holds(less, back[id], id);
      OneHolder(table, inverse, g, back[id], id);
    }
  }

  lemma TableGive(table: map<nat, set<Slot>>, inverse: map<Slot, nat>, index: nat, ids: set<Slot>)
    requires TableOk(table, inverse) && index !in table && ids !! inverse.Keys
    ensures TableOk(table[index := ids], inverse + Owned(ids, index))
  {
    var more, back := table[index := ids], inverse + Owned(ids, index);
    forall g: nat, k: Slot ensures Holds(more, g, k) <==> Points(back, k, g) {
      assert Holds(table, g, k) <==> Points(inverse, k, g);
    }
  }

  function Owned(ids: set<Slot>, w: nat): map<Slot, nat> {
    map id | id in ids :: w
  }
}
