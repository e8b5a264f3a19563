/** The :threaded-mode pool: groups of threads, each thread on its own dispatch slot. Which threads are
    still alive is the operating system's to say: `running` holds their slots and `Exits` shrinks it. */
module ThreadedPools {
  import opened SlotBanks
  import opened SlotTables

  ghost predicate IndexesOk(groups: set<nat>, replacements: set<nat>, retiring: set<nat>, next: nat) {
    && (forall g :: g in groups ==> g < next) && (forall g :: g in replacements ==> g < next)
    && retiring <= groups
  }

  /** Group `index` has `k` slots, with a thread on each where none was; nothing else has changed. */
  ghost predicate Populated(before: map<nat, set<Slot>>, up: set<Slot>, now: map<nat, set<Slot>>, running: set<Slot>,
                            index: nat, k: nat)
  {
    && index in now && now == before[index := now[index]] && |now[index]| == k
    && now[index] !! up && running == up + now[index]
  }

  lemma PopulatedOn(before: map<nat, set<Slot>>, up: set<Slot>, now: map<nat, set<Slot>>, running: set<Slot>,
                    index: nat, k: nat, id: Slot)
    requires Populated(before, up, now, running, index, k) && id !in now[index] && id !in running
    ensures Populated(before, up, now[index := now[index] + {id}], running + {id}, index, k + 1)
  {
  }

  /** What is to be seen of the pool at one moment. */
  datatype Table = Table(groups: map<nat, set<Slot>>, retiring: set<nat>, running: set<Slot>, quarantined: set<Slot>,
                         free: set<Slot>)

  ghost predicate RetireStep(s: Table, g: nat, t: Table) {
    g in s.groups && g !in s.retiring && t == s.(retiring := s.retiring + {g})
  }

  ghost predicate ExitStep(s: Table, id: Slot, t: Table) {
    t == s.(running := s.running - {id})
  }

  /** A stand-in group on slots no group holds; nothing else changes but what the bank has free. */
  ghost predicate ReplaceStep(s: Table, id: Slot, t: Table) {
    exists g: nat :: (
      && g !in s.groups && g in t.groups && t.groups == s.groups[g := t.groups[g]]
      && (forall h :: h in s.groups ==> t.groups[g] !! s.groups[h])
      && t.running == s.running + t.groups[g] && t.quarantined == s.quarantined + {id} && t.retiring == s.retiring)
  }

  /** Retiring, and none of its threads alive. */
  predicate Finished(s: Table, g: nat) {
    g in s.retiring && g in s.groups && s.groups[g] !! s.running
  }

  /** The finished groups leave, and exactly their slots become free; marks stay. */
  ghost predicate ReapStep(s: Table, t: Table) {
    && (forall g :: g in t.groups <==> g in s.groups && !Finished(s, g))
    && (forall g :: g in t.groups ==> t.groups[g] == s.groups[g])
    && (forall g, id :: g in s.groups && id in s.groups[g] ==> (id in t.free <==> Finished(s, g)))
    && t.retiring == s.retiring * t.groups.Keys && t.running == s.running && t.quarantined == s.quarantined
  }

  lemma Reaped(s: Table, inverse: map<Slot, nat>, t: Table, back: map<Slot, nat>)
    requires TableOk(s.groups, inverse) && TableOk(t.groups, back) && s.retiring <= s.groups.Keys
    requires forall id :: id in inverse ==> (id in t.free <==> id !in back)
    requires exists done: set<nat> :: (
      && (forall g :: g in done <==> Finished(s, g))
      && t == s.(groups := s.groups - done, retiring := s.retiring - done, free := t.free))
    ensures ReapStep(s, t)
  {
    forall g, id | g in s.groups && id in s.groups[g] ensures id in t.free <==> Finished(s, g) {
      assert Holds(s.groups, g, id);
      assert Points(inverse, id, g);
      TableShrunk(s.groups, inverse, t.groups, back, id);
    }
  }

  /** A quarantined slot that a group holds becomes free in a reap exactly if the group was retired and all its
      threads have ended. */
  lemma QuarantinedFreedExactly(s: Table, t: Table, g: nat, id: Slot)
    requires ReapStep(s, t) && Holds(s.groups, g, id) && id in s.quarantined
    ensures id in t.quarantined && (id in t.free <==> g in s.retiring && s.groups[g] !! s.running)
  {
  }

  class ThreadedPool {
    const bank: SlotBank
    const threads: nat
    var groups: map<nat, set<Slot>>
    var slotToGroup: map<Slot, nat>
    var retiring: set<nat>
    var replacements: set<nat>
    var wedged: set<nat>
    var nextIndex: nat
    var running: set<Slot>
    var quarantined: set<Slot>     // slots marked natively as wedged; nothing ever clears the mark

    constructor (threads: nat)
      ensures Valid() && fresh(bank) && this.threads == threads && Active() == {}
      ensures groups == map[] && retiring == {} && running == {} && quarantined == {}
    {
      bank := new SlotBank();
      this.threads := threads;
      groups, slotToGroup, retiring, replacements := map[], map[], {}, {};
      wedged, nextIndex, running, quarantined := {}, 0, {}, {};
    }

    /** The slots out of the bank are exactly those in the group table, each in one group; only they have
        a thread running. */
    ghost predicate Valid()
      reads this, bank
    {
      && bank.Valid() && TableOk(groups, slotToGroup) && slotToGroup.Keys == bank.out && running <= bank.out
      && IndexesOk(groups.Keys, replacements, retiring, nextIndex)
    }

    ghost function Look(): Table
      reads this, bank
    {
      Table(groups, retiring, running, quarantined, bank.free)
    }

    /** What `active_count` counts: the groups that are staying, replacements aside. */
    function Active(): set<nat>
      reads this
    {
      groups.Keys - replacements - retiring
    }

    /** The groups the scaler may retire: those that count and are not wedged. */
    function Offered(): map<nat, set<Slot>>
      requires Valid()
      reads this, bank
    {
      map g | g in Active() && g !in wedged :: groups[g]
    }

    method ActiveCount() returns (n: nat)
      ensures n == |Active()|
    {
      n := |Active()|;
    }

    /** A thread ends, by returning or by dying. */
    method Exits(id: Slot)
      requires Valid()
      modifies this`running
      ensures Valid() && ExitStep(old(Look()), id, Look())
    {
      running := running - {id};
    }

    /** One slot claimed and one thread started on it: no other thread is running there. */
    method AddThread(index: nat) returns (id: Slot)
      requires Valid() && index in groups
      modifies this`groups, this`slotToGroup, this`running, bank
      ensures Valid() && groups == old(groups)[index := old(groups)[index] + {id}]
      ensures id !in old(groups)[index] && id !in old(running) && running == old(running) + {id}
    {
      id := bank.Claim();
      TableAdd(groups, slotToGroup, index, id);
      groups := groups[index := groups[index] + {id}];
      slotToGroup := slotToGroup[id := index];
      running := running + {id};
    }

    /** The table entry of a group that has no slot yet. */
    method NewGroup(replacement: bool) returns (index: nat)
      requires Valid()
      modifies this`groups, this`nextIndex, this`replacements
      ensures Valid() && index == old(nextIndex) && nextIndex == index + 1
      ensures index !in old(groups) && groups == old(groups)[index := {}]
      ensures replacements == if replacement then old(replacements) + {index} else old(replacements)
    {
      index := nextIndex;
      TableNew(groups, slotToGroup, index);
      nextIndex := nextIndex + 1;
      groups := groups[index := {}];
      if replacement {
        replacements := replacements + {index};
      }
    }

    /** Slots and threads, one at a time, for a group that has none. */
    method Populate(index: nat, slots: nat)
      requires Valid() && index in groups && groups[index] == {}
      modifies this`groups, this`slotToGroup, this`running, bank
      ensures Valid() && index in groups && groups == old(groups)[index := groups[index]]
      ensures |groups[index]| == slots
      ensures groups[index] !! old(running) && running == old(running) + groups[index]
    {
      for k := 0 to slots
        invariant Valid() && Populated(old(groups), old(running), groups, running, index, k)
      {
        ghost var now, up := groups, running;
        var id := AddThread(index);
        PopulatedOn(old(groups), old(running), now, up, index, k, id);
      }
    }

    /** `spawn_group`: in the table before its first slot is claimed. */
    method SpawnGroup(slots: nat, replacement: bool) returns (index: nat)
      requires Valid()
      modifies this`groups, this`nextIndex, this`replacements, this`slotToGroup, this`running, bank
      ensures Valid() && index == old(nextIndex) && nextIndex == index + 1
      ensures index in groups && index !in old(groups) && groups == old(groups)[index := groups[index]]
      ensures |groups[index]| == slots
      ensures groups[index] !! old(running) && running == old(running) + groups[index]
      ensures replacements == if replacement then old(replacements) + {index} else old(replacements)
    {
      index := NewGroup(replacement);
      Populate(index, slots);
    }

    /** A group that counts. */
    method AddGroup() returns (index: nat)
      requires Valid()
      modifies this`groups, this`nextIndex, this`replacements, this`slotToGroup, this`running, bank
      ensures Valid() && index !in old(groups) && Active() == old(Active()) + {index}
      ensures index in groups && groups == old(groups)[index := groups[index]] && |groups[index]| == threads
      ensures groups[index] !! old(running)
    {
      index := SpawnGroup(threads, false);
    }

    /** A group of one thread that does not. */
    method AddStandIn() returns (index: nat)
      requires Valid()
      modifies this`groups, this`nextIndex, this`replacements, this`slotToGroup, this`running, bank
      ensures Valid() && index !in old(groups) && Active() == old(Active())
      ensures index in groups && groups == old(groups)[index := groups[index]] && |groups[index]| == 1
      ensures groups[index] !! old(running) && replacements == old(replacements) + {index}
      ensures running == old(running) + groups[index] && forall h :: h in old(groups) ==>
              groups[index] !! old(groups)[h]
    {
      index := SpawnGroup(1, true);
      forall h | h in old(groups) ensures groups[index] !! old(groups)[h] {
        Apart(groups, slotToGroup, index, h);
      }
    }

    method ReapGroup(g: nat)
      requires Valid() && g in retiring && groups[g] !! running
      modifies this`groups, this`slotToGroup, this`retiring, bank
      ensures Valid() && groups == old(groups) - {g} && retiring == old(retiring) - {g}
      ensures bank.out == old(bank.out) - old(groups)[g] && bank.registered == old(bank.registered)
    {
      TableRemove(groups, slotToGroup, g);
      bank.Release(groups[g]);
      slotToGroup := slotToGroup - groups[g];
      groups := groups - {g};
      retiring := retiring - {g};
    }

    /** The given groups, all retiring and with no thread alive, leave one after another. */
    method ReapAll(done: set<nat>)
      requires Valid() && done <= retiring && forall g :: g in done ==> groups[g] !! running
      modifies this`groups, this`slotToGroup, this`retiring, bank
      ensures Valid() && bank.registered == old(bank.registered)
      ensures groups == old(groups) - done && retiring == old(retiring) - done
      decreases done
    {
      if done != {} {
        var g :| g in done;
        ReapGroup(g);
        ReapAll(done - {g});
      }
    }

    /** `reap`: the retiring groups none of whose threads is alive leave the table and give their slots
        back; no other group is touched. */
    method Reap()
      requires Valid()
      modifies this`groups, this`slotToGroup, this`retiring, bank
      ensures Valid() && bank.registered == old(bank.registered)
      ensures ReapStep(old(Look()), Look())
      ensures forall g: nat :: g in groups <==> g in old(groups) && !(g in old(retiring) && old(groups)[g] !! running)
      ensures (forall g :: g in groups ==> groups[g] == old(groups)[g]) && retiring == old(retiring) * groups.Keys
      ensures Active() == old(Active())
    {
      var done := set g | g in retiring && groups[g] !! running;
      ReapAll(done);
      assert forall g :: g in done <==> Finished(old(Look()), g);
      assert forall id :: id in old(slotToGroup) ==> (id in bank.free <==> id !in slotToGroup);
      Reaped(old(Look()), old(slotToGroup), Look(), slotToGroup);
    }

    /** `groups`: what the scaler may retire. */
    method Retirable() returns (r: map<nat, set<Slot>>)
      requires Valid()
      modifies this`groups, this`slotToGroup, this`retiring, bank
      ensures Valid() && Active() == old(Active()) && bank.registered == old(bank.registered)
      ensures r.Keys == Active() - wedged && forall g :: g in r ==> r[g] == groups[g]
      ensures r == Offered() == old(Offered()) && ReapStep(old(Look()), Look())
      ensures forall g :: g in groups ==> g in old(groups) && groups[g] == old(groups)[g]
    {
      Reap();
      r := map g | g in groups.Keys - retiring - wedged - replacements :: groups[g];
    }

    /** `grow`: one more group, on slots where nothing runs. */
    method Grow() returns (index: nat)
      requires Valid()
      modifies this`groups, this`slotToGroup, this`retiring, this`nextIndex, this`replacements, this`running, bank
      ensures Valid() && index !in old(Active()) && Active() == old(Active()) + {index}
      ensures index in groups && |groups[index]| == threads && groups[index] !! old(running)
      ensures forall g :: g in Active() && g != index ==> groups[g] == old(groups)[g]
      ensures forall g :: g in groups <==> g == index || (g in old(groups) && !Finished(old(Look()), g))
    {
      Reap();
      index := AddGroup();
    }

    /** `retire`: the group leaves the count at once; false when there is nothing to retire. */
    method Retire(index: nat) returns (ok: bool)
      requires Valid()
      modifies this`retiring
      ensures Valid() && ok == (index in groups && index !in old(retiring))
      ensures retiring == if ok then old(retiring) + {index} else old(retiring)
      ensures ok ==> RetireStep(old(Look()), index, Look())
      ensures Active() == if ok then old(Active()) - {index} else old(Active())
    {
      if index !in groups || index in retiring {
        return false;
      }
      retiring := retiring + {index};
      return true;
    }

    /** `replace`: a stand-in thread on a slot where nothing runs, counted nowhere; the wedged group goes
        on counting but is no longer offered to the scaler. */
    method Replace(workerId: Slot) returns (index: nat)
      requires Valid()
      modifies this`groups, this`slotToGroup, this`nextIndex, this`replacements, this`wedged, this`quarantined
      modifies this`running, bank
      ensures Valid() && Active() == old(Active())
      ensures index !in old(groups) && index in groups && groups == old(groups)[index := groups[index]]
      ensures |groups[index]| == 1 && groups[index] !! old(running) && replacements == old(replacements) + {index}
      ensures wedged == if workerId in slotToGroup then old(wedged) + {slotToGroup[workerId]} else old(wedged)
      ensures ReplaceStep(old(Look()), workerId, Look())
    {
      index := AddStandIn();
      quarantined := quarantined + {workerId};
      if workerId in slotToGroup {
        wedged := wedged + {slotToGroup[workerId]};
      }
    }

    /** `start`: so many groups. */
    method Start(workers: nat)
      requires Valid() && Active() == {}
      modifies this`groups, this`nextIndex, this`replacements, this`slotToGroup, this`running, bank
      ensures Valid() && |Active()| == workers
    {
      for k := 0 to workers
        invariant Valid() && |Active()| == k
      {
        var index := AddGroup();
      }
    }
  }

  method TheOne(ids: set<Slot>) returns (id: Slot)
    requires |ids| == 1
    ensures ids == {id}
  {
    id :| id in ids;
    assert |ids - {id}| == 0;
  }

  /** One group of one thread, running. */
  method OneGroup() returns (pool: ThreadedPool, g: nat, id: Slot)
    ensures fresh(pool) && fresh(pool.bank) && pool.Valid()
    ensures pool.groups == map[g := {id}] && pool.retiring == {} && pool.running == {id} && pool.quarantined == {}
  {
    pool := new ThreadedPool(1);
    g := pool.SpawnGroup(1, false);
    var groups := pool.groups;
    id := TheOne(groups[g]);
    assert groups == map[g := {id}];
  }

  /** Tables through a retirement, a replacement, an exit and a reap. */
  ghost predicate Comeback(trace: seq<Table>, g: nat, id: Slot) {
    && |trace| == 5 && RetireStep(trace[0], g, trace[1]) && ReplaceStep(trace[1], id, trace[2])
    && ExitStep(trace[2], id, trace[3]) && ReapStep(trace[3], trace[4])
  }

  /** A group of one thread is retired; the thread takes one more request and wedges on it; its slot is
      quarantined; then it comes back and leaves. In every such run the quarantined slot ends up free. */
  lemma QuarantinedComesFree(trace: seq<Table>, g: nat, id: Slot)
    requires Comeback(trace, g, id) && trace[0].groups[g] == {id}
    ensures id in trace[4].quarantined && id in trace[4].free
  {
    var h: nat :| h !in trace[1].groups && h in trace[2].groups
      && trace[2].groups == trace[1].groups[h := trace[2].groups[h]]
      && trace[2].running == trace[1].running + trace[2].groups[h];
    assert trace[3].groups[g] == {id} && id !in trace[3].running;
    assert Holds(trace[3].groups, g, id);
    QuarantinedFreedExactly(trace[3], trace[4], g, id);
  }

  /** Retired and then quarantined. */
  method RetireThenReplace(pool: ThreadedPool, g: nat, id: Slot) returns (ghost trace: seq<Table>)
    requires pool.Valid() && g in pool.groups && g !in pool.retiring
    modifies pool, pool.bank
    ensures pool.Valid() && |trace| == 3 && trace[0] == old(pool.Look()) && trace[2] == pool.Look()
    ensures RetireStep(trace[0], g, trace[1]) && ReplaceStep(trace[1], id, trace[2])
  {
    trace := [pool.Look()];
    var _ := pool.Retire(g);
    trace := trace + [pool.Look()];
    var _ := pool.Replace(id);
    trace := trace + [pool.Look()];
  }

  /** And the pool goes through such a run. */
  method QuarantinedIsFree() returns (pool: ThreadedPool, ghost trace: seq<Table>, g: nat, id: Slot)
    ensures fresh(pool) && pool.Valid() && Comeback(trace, g, id) && trace[4] == pool.Look()
    ensures trace[0].groups == map[g := {id}] && trace[0].running == {id} && trace[0].quarantined == {}
    ensures id in pool.quarantined && id in pool.bank.free
  {
    pool, g, id := OneGroup();
    trace := RetireThenReplace(pool, g, id);
    pool.Exits(id);
    trace := trace + [pool.Look()];
    pool.Reap();
    trace := trace + [pool.Look()];
    QuarantinedComesFree(trace, g, id);
  }
}
