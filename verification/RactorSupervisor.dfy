/** The :ractor-mode pool: worker ractors under supervision, respawned on other slots when they crash.
    Each method is one lock-protected step, or one stretch of a supervisor thread that only it runs. */
module RactorSupervisors {
  import opened SlotBanks
  import opened SlotTables

  /** `start`: supervision of workers 0, 1, 2 and so on. */
  method FirstIndexes(n: nat) returns (s: set<nat>)
    ensures |s| == n && forall w: nat :: w in s <==> w < n
  {
    s := {};
    for w := 0 to n
      invariant |s| == w && forall v: nat :: v in s <==> v < w
    {
      s := s + {w};
    }
  }

  class RactorSupervisor {
    const bank: SlotBank
    const threads: nat
    var live: set<nat>
    var retiring: set<nat>
    var replaced: set<nat>
    var workerSlots: map<nat, set<Slot>>
    var slotToWorker: map<Slot, nat>
    var nextIndex: nat
    var running: map<nat, set<Slot>>       // the ractors that run, and the slots each was started on
    var retiredSlots: set<Slot>            // slots told natively to stop
    ghost var holder: map<Slot, nat>       // inverts `running`
    ghost var abandoned: set<Slot>         // out of the bank for good, with no ractor on them

    constructor (workers: nat, threads: nat)
      ensures Valid() && fresh(bank) && this.threads == threads && running == map[] && abandoned == {}
      ensures |Active()| == workers && (forall w: nat :: w in Active() <==> w < workers)
      ensures workerSlots == map[] && slotToWorker == map[] && replaced == {} && retiring == {} && nextIndex == workers
    {
      bank := new SlotBank();
      this.threads := threads;
      var first := FirstIndexes(workers);
      live := first;
      retiring, replaced, nextIndex := {}, {}, workers;
      workerSlots, slotToWorker, running, retiredSlots := map[], map[], map[], {};
      holder, abandoned := map[], {};
    }

    ghost predicate Valid()
      reads this, bank
    {
      && bank.Valid() && SlotsOk(running, holder, abandoned, bank.out)
      && BooksOk(live, running, workerSlots, slotToWorker, abandoned)
      && IndexesOk(live, running.Keys, retiring, replaced, workerSlots.Keys, slotToWorker, nextIndex)
    }

    function Active(): set<nat>
      reads this
    {
      live - replaced - retiring
    }

    method ActiveCount() returns (n: nat)
      ensures n == |Active()|
    {
      n := |Active()|;
    }

    /** `groups`: what the scaler may retire. */
    method Retirable() returns (r: map<nat, set<Slot>>)
      requires Valid()
      ensures r.Keys == Active() * workerSlots.Keys && forall w :: w in r ==> r[w] == workerSlots[w]
    {
      r := map w | w in Active() && w in workerSlots :: workerSlots[w];
    }

    method ClaimSlots(n: nat) returns (ids: set<Slot>)
      requires bank.Valid()
      modifies bank
      ensures bank.Valid() && |ids| == n && ids !! old(bank.out) && bank.out == old(bank.out) + ids
    {
      ids := {};
      for k := 0 to n
        invariant bank.Valid() && |ids| == k && ids !! old(bank.out) && bank.out == old(bank.out) + ids
      {
        var id := bank.Claim();
        ids := ids + {id};
      }
    }

    /** Claimed slots entered in the tables, reset for their new occupant. */
    method Install(w: nat, ids: set<Slot>)
      requires bank.Valid() && SlotsOk(running[w := ids], holder + Owned(ids, w), abandoned, bank.out)
      requires BooksOk(live, running[w := ids], workerSlots[w := ids], slotToWorker + Owned(ids, w), abandoned)
      requires IndexesOk(live, running.Keys, retiring, replaced, workerSlots.Keys, slotToWorker, nextIndex) && w in live
      modifies this`workerSlots, this`slotToWorker, this`running, this`retiredSlots, this`holder
      ensures Valid() && running == old(running)[w := ids]
      ensures workerSlots == old(workerSlots)[w := ids] && retiredSlots == old(retiredSlots) - ids
      ensures slotToWorker == old(slotToWorker) + Owned(ids, w)
    {
      workerSlots := workerSlots[w := ids];
      slotToWorker := slotToWorker + Owned(ids, w);
      holder := holder + Owned(ids, w);
      running := running[w := ids];
      retiredSlots := retiredSlots - ids;
    }

    /** `spawn_worker`: a ractor on claimed slots, which no other ractor runs on. */
    method Spawn(w: nat) returns (ids: set<Slot>)
      requires Valid() && w in live && w !in running
      modifies this`workerSlots, this`slotToWorker, this`running, this`retiredSlots, this`holder, bank
      ensures Valid() && |ids| == threads && running == old(running)[w := ids]
      ensures forall v :: v in old(running) ==> ids !! old(running)[v]
      ensures workerSlots == old(workerSlots)[w := ids] && retiredSlots == old(retiredSlots) - ids
      ensures slotToWorker == old(slotToWorker) + Owned(ids, w)
    {
      ids := ClaimSlots(threads);
      SlotsGiven(running, holder, abandoned, old(bank.out), w, ids);
      BooksGiven(live, running, workerSlots, slotToWorker, abandoned, w, ids);
      Install(w, ids);
    }

    /** `grow`: counted from the moment it is asked for. */
    method Grow() returns (w: nat)
      requires Valid()
      modifies this`live, this`nextIndex
      ensures Valid() && w !in old(Active()) && Active() == old(Active()) + {w}
      ensures w == old(nextIndex) && nextIndex == w + 1 && live == old(live) + {w} && w !in running
    {
      w := nextIndex;
      nextIndex := nextIndex + 1;
      live := live + {w};
    }

    /** `retire`: out of the count at once. A live worker with no slots yet is marked, and yet answered false. */
    method Retire(w: nat) returns (ok: bool)
      requires Valid()
      modifies this`retiring, this`retiredSlots
      ensures Valid() && ok == (w in live && w !in old(retiring) && w in workerSlots)
      ensures retiring == if w in live then old(retiring) + {w} else old(retiring)
      ensures Active() == old(Active()) - {w}
      ensures retiredSlots == if ok then old(retiredSlots) + workerSlots[w] else old(retiredSlots)
    {
      if w !in live || w in retiring {
        return false;
      }
      retiring := retiring + {w};
      if w !in workerSlots {
        return false;
      }
      retiredSlots := retiredSlots + workerSlots[w];
      return true;
    }

    /** `replace`: once per worker; the new one counts, the replaced one no longer does. */
    method Replace(id: Slot) returns (ok: bool)
      requires Valid()
      modifies this`live, this`nextIndex, this`replaced
      ensures Valid() && ok == (id in slotToWorker && slotToWorker[id] !in old(replaced))
      ensures replaced == if ok then old(replaced) + {slotToWorker[id]} else old(replaced)
      ensures ok ==>
        old(nextIndex) !in old(Active()) && Active() == old(Active()) - {slotToWorker[id]} + {old(nextIndex)}
      ensures live == (if ok then old(live) + {old(nextIndex)} else old(live))
      ensures nextIndex == old(nextIndex) + if ok then 1 else 0
      ensures !ok ==> Active() == old(Active())
    {
      if id !in slotToWorker || slotToWorker[id] in replaced {
        return false;
      }
      replaced := replaced + {slotToWorker[id]};
      var w := Grow();
      return true;
    }

    /** A retired worker's ractor returned: its slots go back to the bank. */
    method ExitRetired(w: nat)
      requires Valid() && w in running && w in retiring
      modifies this`live, this`retiring, this`running, this`holder, bank
      ensures Valid() && live == old(live) - {w} && retiring == old(retiring) - {w} && running == old(running) - {w}
      ensures bank.out == old(bank.out) - old(running)[w] && bank.registered == old(bank.registered)
    {
      SlotsEnded(running, holder, abandoned, bank.out, w);
      BooksEnded(live, running, workerSlots, slotToWorker, abandoned, w);
      bank.Release(running[w]);
      live, retiring := live - {w}, retiring - {w};
      holder, running := holder - running[w], running - {w};
    }

    /** Any worker's ractor returned: one that was not retired, as when the queue is drained at shutdown,
        keeps its slots out of the bank. */
    method ExitClean(w: nat)
      requires Valid() && w in running
      modifies this`live, this`retiring, this`running, this`holder, this`abandoned, bank
      ensures Valid() && live == old(live) - {w} && retiring == old(retiring) - {w} && running == old(running) - {w}
      ensures abandoned == if w in old(retiring) then old(abandoned) else old(abandoned) + old(running)[w]
      ensures Active() == old(Active()) - {w}
    {
      if w in retiring {
        ExitRetired(w);
      } else {
        Abandon(w, true);
      }
    }

    /** A ractor ended and its slots are not handed back. */
    method Abandon(w: nat, leaves: bool)
      requires Valid() && w in running
      modifies this`live, this`retiring, this`running, this`holder, this`abandoned
      ensures Valid() && live == (if leaves then old(live) - {w} else old(live))
      ensures retiring == old(retiring) - {w} && running == old(running) - {w}
      ensures abandoned == old(abandoned) + old(running)[w]
    {
      SlotsEnded(running, holder, abandoned, bank.out, w);
      BooksEnded(live, running, workerSlots, slotToWorker, abandoned, w);
      abandoned := abandoned + running[w];
      if leaves {
        live := live - {w};
      }
      retiring := retiring - {w};
      holder, running := holder - running[w], running - {w};
    }

    /** A ractor died: its slots are abandoned. Unless the server is draining, its supervisor is about to
        spawn another, and a worker that was on its way out is no longer. */
    method Crash(w: nat, draining: bool)
      requires Valid() && w in running
      modifies this`live, this`retiring, this`running, this`holder, this`abandoned
      ensures Valid() && live == (if draining then old(live) - {w} else old(live))
      ensures retiring == old(retiring) - {w} && running == old(running) - {w}
      ensures abandoned == old(abandoned) + old(running)[w]
      ensures Active() == if draining then old(Active()) - {w}
                          else if w in old(retiring) && w !in replaced then old(Active()) + {w}
                          else old(Active())
    {
      Abandon(w, draining);
    }
  }

  ghost predicate Below(s: set<nat>, n: nat) {
    forall w :: w in s ==> w < n
  }

  ghost predicate IndexesOk(live: set<nat>, running: set<nat>, retiring: set<nat>, replaced: set<nat>,
                            slotted: set<nat>, slotToWorker: map<Slot, nat>, next: nat)
  {
    && running <= live && retiring <= live && Below(live, next) && Below(replaced, next) && Below(slotted, next)
    && forall id :: id in slotToWorker ==> slotToWorker[id] < next
  }

  /** The slots out of the bank are those some ractor runs on, each under one, and the abandoned ones. */
  ghost predicate SlotsOk(running: map<nat, set<Slot>>, holder: map<Slot, nat>, abandoned: set<Slot>, out: set<Slot>) {
    && TableOk(running, holder)
    && (forall id: Slot :: id in out <==> id in holder || id in abandoned)
    && (forall id: Slot :: id in holder ==> id !in abandoned)
  }

  /** The tables agree with what runs; a worker between two ractors still lists the abandoned slots. */
  ghost predicate BooksOk(live: set<nat>, running: map<nat, set<Slot>>, workerSlots: map<nat, set<Slot>>,
                          slotToWorker: map<Slot, nat>, abandoned: set<Slot>)
  {
    && (forall w :: w in running ==> w in workerSlots && workerSlots[w] == running[w])
    && (forall w, id :: w in live && w in workerSlots && id in workerSlots[w] ==> Points(slotToWorker, id, w))
    && (forall w :: w in live && w !in running && w in workerSlots ==> workerSlots[w] <= abandoned)
  }

  lemma SlotsGiven(running: map<nat, set<Slot>>, holder: map<Slot, nat>, abandoned: set<Slot>, out: set<Slot>,
                   w: nat, ids: set<Slot>)
    requires SlotsOk(running, holder, abandoned, out) && w !in running && ids !! out
    ensures SlotsOk(running[w := ids], holder + Owned(ids, w), abandoned, out + ids)
    ensures ids !! abandoned && forall v :: v in running ==> ids !! running[v]
  {
    TableGive(running, holder, w, ids);
    forall v, id | v in running && id in running[v] ensures id !in ids {
      assert Holds(running, v, id);
      assert Points(holder, id, v);
    }
  }

  lemma BooksGiven(live: set<nat>, running: map<nat, set<Slot>>, workerSlots: map<nat, set<Slot>>,
                   slotToWorker: map<Slot, nat>, abandoned: set<Slot>, w: nat, ids: set<Slot>)
    requires BooksOk(live, running, workerSlots, slotToWorker, abandoned) && w !in running
    requires ids !! abandoned && forall v :: v in running ==> ids !! running[v]
    ensures BooksOk(live, running[w := ids], workerSlots[w := ids], slotToWorker + Owned(ids, w), abandoned)
  {
    var slots, back := workerSlots[w := ids], slotToWorker + Owned(ids, w);
    forall v, id | v in live && v in slots && id in slots[v] ensures Points(back, id, v) {
      if v != w {
        assert Points(slotToWorker, id, v);
        assert id !in ids by { assert v in running || workerSlots[v] <= abandoned; }
      }
    }
  }

  lemma SlotsEnded(running: map<nat, set<Slot>>, holder: map<Slot, nat>, abandoned: set<Slot>, out: set<Slot>, w: nat)
    requires SlotsOk(running, holder, abandoned, out) && w in running
    ensures running[w] <= out
    ensures SlotsOk(running - {w}, holder - running[w], abandoned + running[w], out)
    ensures SlotsOk(running - {w}, holder - running[w], abandoned, out - running[w])
  {
    TableRemove(running, holder, w);
  }

  lemma BooksEnded(live: set<nat>, running: map<nat, set<Slot>>, workerSlots: map<nat, set<Slot>>,
                   slotToWorker: map<Slot, nat>, abandoned: set<Slot>, w: nat)
    requires BooksOk(live, running, workerSlots, slotToWorker, abandoned) && w in running
    ensures BooksOk(live, running - {w}, workerSlots, slotToWorker, abandoned + running[w])
    ensures BooksOk(live - {w}, running - {w}, workerSlots, slotToWorker, abandoned + running[w])
    ensures BooksOk(live - {w}, running - {w}, workerSlots, slotToWorker, abandoned)
  {
    var less := running - {w};
    assert forall v :: v in less ==> v in running && less[v] == running[v];
  }
}
