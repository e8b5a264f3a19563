/** The policy half of the pool scaler: what it infers about idleness from its samples, set against the
    whole history of which worker held which request when. */
module PoolScalers {
  import opened Options
  import opened SlotBanks

  const PRESSURE_TICKS := 2

  /** One request in a worker's hands, from admission until the worker is done with it. */
  datatype Service = Service(worker: nat, slot: Slot, begins: real, ends: real)

  datatype Row = Row(served: nat, inFlight: nat)
  predicate Counts(s: Service, w: nat, slots: set<Slot>, t: real) {
    s.worker == w && s.slot in slots && s.begins <= t
  }

  /** Requests the worker has been given on these slots by time `t`. */
  function Begun(h: seq<Service>, w: nat, slots: set<Slot>, t: real): nat {
    if h == [] then 0 else (if Counts(h[0], w, slots, t) then 1 else 0) + Begun(h[1..], w, slots, t)
  }

  /** Requests it holds on them at time `t`. */
  function InHand(h: seq<Service>, w: nat, slots: set<Slot>, t: real): nat {
    if h == [] then 0
    else (if Counts(h[0], w, slots, t) && t < h[0].ends then 1 else 0) + InHand(h[1..], w, slots, t)
  }

  /** The worker held no request at any instant from `a` to `b`. */
  ghost predicate Quiet(h: seq<Service>, w: nat, slots: set<Slot>, a: real, b: real) {
    forall t: real :: a <= t <= b ==> InHand(h, w, slots, t) == 0
  }

  lemma {:induction false} Splits(h: seq<Service>, w: nat, slots: set<Slot>, more: set<Slot>, t: real)
    requires slots !! more
    ensures Begun(h, w, slots + more, t) == Begun(h, w, slots, t) + Begun(h, w, more, t)
    ensures InHand(h, w, slots + more, t) == InHand(h, w, slots, t) + InHand(h, w, more, t)
  {
    if h != [] {
      Splits(h[1..], w, slots, more, t);
    }
  }

  lemma {:induction false} NoSlots(h: seq<Service>, w: nat, t: real)
    ensures Begun(h, w, {}, t) == 0 && InHand(h, w, {}, t) == 0
  {
    if h != [] {
      NoSlots(h[1..], w, t);
    }
  }

  lemma {:induction false} BegunGrows(h: seq<Service>, w: nat, slots: set<Slot>, a: real, b: real)
    requires a <= b
    ensures Begun(h, w, slots, a) <= Begun(h, w, slots, b)
  {
    if h != [] {
      BegunGrows(h[1..], w, slots, a, b);
    }
  }

  /** Empty-handed at one sample and no admission counted by the next: empty-handed in between. */
  lemma {:induction false} NothingInBetween(h: seq<Service>, w: nat, slots: set<Slot>, a: real, t: real, b: real)
    requires a <= t <= b && InHand(h, w, slots, a) == 0 && Begun(h, w, slots, a) == Begun(h, w, slots, b)
    ensures InHand(h, w, slots, t) == 0
  {
    if h != [] {
      BegunGrows(h[1..], w, slots, a, b);
      NothingInBetween(h[1..], w, slots, a, t, b);
    }
  }

  lemma QuietGoesOn(h: seq<Service>, w: nat, slots: set<Slot>, since: real, a: real, b: real)
    requires since <= a <= b && Quiet(h, w, slots, since, a) && Begun(h, w, slots, a) == Begun(h, w, slots, b)
    ensures Quiet(h, w, slots, since, b)
  {
    forall t: real | since <= t <= b ensures InHand(h, w, slots, t) == 0 {
      if t > a {
        NothingInBetween(h, w, slots, a, t, b);
      }
    }
  }

  /** What is true of a worker on the idle list at the last sample. */
  ghost predicate IdleOk(h: seq<Service>, w: nat, slots: set<Slot>, since: real, served: nat, at: real) {
    since <= at && served == Begun(h, w, slots, at) && Quiet(h, w, slots, since, at)
  }

  /** Requests take time. */
  ghost predicate Lasting(h: seq<Service>) {
    forall i :: 0 <= i < |h| ==> h[i].begins < h[i].ends
  }

  lemma {:induction false} HeldWereBegun(h: seq<Service>, w: nat, slots: set<Slot>, t: real)
    ensures InHand(h, w, slots, t) <= Begun(h, w, slots, t)
  {
    if h != [] {
      HeldWereBegun(h[1..], w, slots, t);
    }
  }

  /** An admission between two instants leaves the worker with something in hand in between. */
  lemma {:induction false} AdmissionShows(h: seq<Service>, w: nat, slots: set<Slot>, a: real, b: real) returns (t: real)
    requires a <= b && Lasting(h) && Begun(h, w, slots, a) < Begun(h, w, slots, b)
    ensures a < t <= b && InHand(h, w, slots, t) > 0
  {
    if Counts(h[0], w, slots, b) && !Counts(h[0], w, slots, a) {
      t := h[0].begins;
    } else {
      t := AdmissionShows(h[1..], w, slots, a, b);
    }
  }

  /** A worker respawned on other slots while listed: its served total starts again from zero, so the test
      compares totals of different slots. When it passes, the worker really held nothing exactly if the
      noted total was zero and the old slots admitted nothing more. */
  lemma RespawnIdleExactly(h: seq<Service>, w: nat, slots: set<Slot>, respawned: set<Slot>,
                           since: real, served: nat, a: real, b: real)
    requires Lasting(h) && a <= b && slots !! respawned && IdleOk(h, w, slots, since, served, a)
    requires Begun(h, w, respawned, a) == 0
    requires Begun(h, w, respawned, b) == served && InHand(h, w, respawned, b) == 0
    ensures Quiet(h, w, slots + respawned, since, b) <==> served == 0 && Begun(h, w, slots, b) == Begun(h, w, slots, a)
  {
    if served == 0 && Begun(h, w, slots, b) == Begun(h, w, slots, a) {
      QuietGoesOn(h, w, slots, since, a, b);
      forall t: real | since <= t <= b ensures InHand(h, w, slots + respawned, t) == 0 {
        Splits(h, w, slots, respawned, t);
        HeldWereBegun(h, w, respawned, t);
        BegunGrows(h, w, respawned, t, b);
      }
    } else {
      BegunGrows(h, w, slots, a, b);
      var t := AdmissionShows(h, w, if served > 0 then respawned else slots, a, b);
      Splits(h, w, slots, respawned, t);
    }
  }

  function Held(s: Service, id: Slot, t: real): (nat, nat) {
    (if Counts(s, 0, {id}, t) then 1 else 0, if Counts(s, 0, {id}, t) && t < s.ends then 1 else 0)
  }

  /** Such a worker: one request before the respawn and one after it, the second unseen. */
  lemma RespawnHidesWork()
    ensures exists h: seq<Service> ::
              && Lasting(h) && IdleOk(h, 0, {0}, 1.0, 1, 1.0) && Begun(h, 0, {1}, 1.0) == 0
              && Begun(h, 0, {1}, 4.0) == 1 && InHand(h, 0, {1}, 4.0) == 0
              && !Quiet(h, 0, {0} + {1}, 1.0, 4.0)
  {
    var first, second := Service(0, 0, 0.0, 1.0), Service(0, 1, 2.0, 3.0);
    var h := [first, second];
    forall t: real, id: Slot
      ensures Begun(h, 0, {id}, t) == Held(first, id, t).0 + Held(second, id, t).0
      ensures InHand(h, 0, {id}, t) == Held(first, id, t).1 + Held(second, id, t).1
    {
      assert h[1..] == [second] && [second][1..] == [];
      assert Begun([second], 0, {id}, t) == Held(second, id, t).0;
      assert InHand([second], 0, {id}, t) == Held(second, id, t).1;
    }
    RespawnIdleExactly(h, 0, {0}, {1}, 1.0, 1, 1.0, 4.0);
  }

  ghost predicate AllIdleOk(h: seq<Service>, idleSince: map<nat, real>, lastServed: map<nat, nat>,
                            slots: map<nat, set<Slot>>, moved: set<nat>, at: real)
  {
    forall w :: w in idleSince ==>
      w in lastServed && w in slots && (w !in moved ==> IdleOk(h, w, slots[w], idleSince[w], lastServed[w], at))
  }

  /** A row reports the slot's worker as it is at the sample; no row means nothing was ever admitted. */
  ghost predicate RowTrue(h: seq<Service>, rows: map<Slot, Row>, w: nat, id: Slot, now: real) {
    RowOf(rows, id) == Row(Begun(h, w, {id}, now), InHand(h, w, {id}, now))
  }

  ghost predicate Sampled(h: seq<Service>, rows: map<Slot, Row>, groups: map<nat, set<Slot>>, now: real) {
    forall w, id :: w in groups && id in groups[w] ==> RowTrue(h, rows, w, id, now)
  }

  function RowOf(rows: map<Slot, Row>, id: Slot): Row {
    if id in rows then rows[id] else Row(0, 0)
  }

  /** A worker's rows added up. */
  method Tally(rows: map<Slot, Row>, slots: set<Slot>, ghost h: seq<Service>, ghost w: nat, ghost now: real)
    returns (served: nat, busy: bool)
    requires forall id :: id in slots ==> RowTrue(h, rows, w, id, now)
    ensures served == Begun(h, w, slots, now)
    ensures busy <==> InHand(h, w, slots, now) > 0
  {
    served, busy := 0, false;
    var todo := slots;
    ghost var done: set<Slot> := {};
    NoSlots(h, w, now);
    while todo != {}
      invariant todo !! done && todo + done == slots
      invariant served == Begun(h, w, done, now)
      invariant busy <==> InHand(h, w, done, now) > 0
      decreases todo
    {
      var id :| id in todo;
      Splits(h, w, done, {id}, now);
      assert RowTrue(h, rows, w, id, now);
      served := served + RowOf(rows, id).served;
      busy := busy || RowOf(rows, id).inFlight > 0;
      todo, done := todo - {id}, done + {id};
    }
    assert done == slots;
  }

  /** How many readings at the end of the list are not zero. */
  function Streak(depths: seq<nat>): nat {
    if depths == [] || depths[|depths| - 1] == 0 then 0 else 1 + Streak(depths[..|depths| - 1])
  }

  /** The last `n` readings are not zero. */
  predicate Pressed(depths: seq<nat>, n: nat) {
    n <= |depths| && forall i :: |depths| - n <= i < |depths| ==> depths[i] > 0
  }

  lemma {:induction false} StreakIsPressure(depths: seq<nat>, n: nat)
    ensures Streak(depths) >= n <==> Pressed(depths, n)
  {
    if n > 0 && depths != [] {
      StreakIsPressure(depths[..|depths| - 1], n - 1);
    }
  }

  /** Nothing in hand at the sample, and nothing admitted since the one before. */
  ghost predicate IdleNow(h: seq<Service>, w: nat, slots: set<Slot>, now: real, before: map<nat, nat>) {
    InHand(h, w, slots, now) == 0 && w in before && before[w] == Begun(h, w, slots, now)
  }

  /** What a sample makes of the idle list and the noted totals: listed are exactly the workers idle now, since
      when they first were; workers that went from the list to elsewhere are forgotten. */
  ghost predicate Observed(h: seq<Service>, groups: map<nat, set<Slot>>, now: real,
                           idle0: map<nat, real>, last0: map<nat, nat>, idle: map<nat, real>, last: map<nat, nat>)
  {
    && (forall w :: w in idle <==> w in groups && IdleNow(h, w, groups[w], now, last0))
    && (forall w :: w in idle ==> idle[w] == if w in idle0 then idle0[w] else now)
    && (forall w :: w in last <==> w in groups || (w in last0 && w !in idle0))
    && (forall w :: w in last ==> last[w] == if w in groups then Begun(h, w, groups[w], now) else last0[w])
  }

  /** The idle list and the totals after a sample, when no worker ever had a request. */
  function QuietIdle(groups: set<nat>, now: real, idle: map<nat, real>, last: map<nat, nat>): map<nat, real> {
    map w | w in groups && w in last && last[w] == 0 :: if w in idle then idle[w] else now
  }

  function QuietLast(groups: set<nat>, idle: map<nat, real>, last: map<nat, nat>): map<nat, nat> {
    map w | w in groups + (last.Keys - idle.Keys) :: if w in groups then 0 else last[w]
  }

  lemma QuietlyObserved(groups: map<nat, set<Slot>>, now: real,
                        idle0: map<nat, real>, last0: map<nat, nat>, idle: map<nat, real>, last: map<nat, nat>)
    requires Observed([], groups, now, idle0, last0, idle, last)
    ensures idle == QuietIdle(groups.Keys, now, idle0, last0) && last == QuietLast(groups.Keys, idle0, last0)
  {
    forall w | w in groups ensures IdleNow([], w, groups[w], now, last0) <==> w in last0 && last0[w] == 0 {
    }
    assert forall w | w in groups :: Begun([], w, groups[w], now) == 0;
  }

  /** Worker `w` has been on the idle list longest. */
  predicate Oldest(idle: map<nat, real>, w: nat) {
    w in idle && forall v :: v in idle ==> idle[w] <= idle[v]
  }

  /** The scaler's settings, and what the workers really did. */
  datatype Policy = Policy(floor: nat, ceiling: nat, scaleDownAfter: real, history: seq<Service>)

  /** No worker is to go home: none can be spared, or none has been idle long enough. */
  ghost predicate NobodyToSpare(p: Policy, count: nat, idle: map<nat, real>, now: real) {
    count <= p.floor || forall w :: w in idle ==> now - idle[w] < p.scaleDownAfter
  }

  class PoolScaler {
    const floor: nat
    const ceiling: nat
    const scaleDownAfter: real
    var pressure: nat
    ghost var depths: seq<nat>            // the queue depth at each tick so far
    var lastServed: map<nat, nat>
    var idleSince: map<nat, real>
    ghost const history: seq<Service>
    ghost var seen: map<nat, set<Slot>>   // the workers at the last sample
    ghost var at: real                    // when that was
    ghost var moved: set<nat>             // the listed ones whose slots changed while they were listed

    constructor (floor: nat, ceiling: nat, scaleDownAfter: real, ghost history: seq<Service>)
      ensures Valid() && idleSince == map[] && lastServed == map[] && depths == [] && at == 0.0 && moved == {}
      ensures this.floor == floor && this.ceiling == ceiling && this.scaleDownAfter == scaleDownAfter
      ensures this.history == history
    {
      this.floor, this.ceiling, this.scaleDownAfter, this.history := floor, ceiling, scaleDownAfter, history;
      pressure, lastServed, idleSince := 0, map[], map[];
      depths, seen, at, moved := [], map[], 0.0, {};
    }

    /** Pressure is the number of ticks in a row that found requests waiting; every listed worker that kept
        its slots has held nothing from the time noted to the last sample. */
    ghost predicate Valid()
      reads this
    {
      pressure == Streak(depths) && AllIdleOk(history, idleSince, lastServed, seen, moved, at)
    }

    /** Grow exactly if the queue was not empty at this tick and the one before. */
    method NotePressure(queued: nat) returns (grow: bool)
      requires Valid()
      modifies this`pressure, this`depths
      ensures Valid() && depths == old(depths) + [queued]
      ensures grow <==> Pressed(depths, PRESSURE_TICKS)
    {
      pressure := if queued > 0 then pressure + 1 else 0;
      assert (depths + [queued])[..|depths|] == depths;
      depths := depths + [queued];
      StreakIsPressure(depths, PRESSURE_TICKS);
      grow := pressure >= PRESSURE_TICKS;
    }

    method Forget(w: nat)
      requires Valid()
      modifies this`idleSince, this`lastServed
      ensures Valid() && idleSince == old(idleSince) - {w} && lastServed == old(lastServed) - {w}
    {
      idleSince := idleSince - {w};
      lastServed := lastServed - {w};
    }

    /** One worker's share of a sample. */
    method ObserveOne(now: real, rows: map<Slot, Row>, w: nat, slots: set<Slot>, ghost steady: bool)
      requires forall id :: id in slots ==> RowTrue(history, rows, w, id, now)
      requires w in idleSince ==> w in lastServed && at <= now
      requires w in idleSince && steady ==> IdleOk(history, w, slots, idleSince[w], lastServed[w], at)
      modifies this`idleSince, this`lastServed
      ensures lastServed == old(lastServed)[w := Begun(history, w, slots, now)]
      ensures IdleNow(history, w, slots, now, old(lastServed)) <==> w in idleSince
      ensures forall v :: v != w ==> (v in idleSince <==> v in old(idleSince))
      ensures forall v :: v in idleSince && v != w ==> idleSince[v] == old(idleSince)[v]
      ensures w in idleSince ==> idleSince[w] == if w in old(idleSince) then old(idleSince)[w] else now
      ensures w in idleSince && (steady || w !in old(idleSince)) ==>
                IdleOk(history, w, slots, idleSince[w], lastServed[w], now)
    {
      var served, busy := Tally(rows, slots, history, w, now);
      var idle := !busy && w in lastServed && lastServed[w] == served;
      if idle {
        if w !in idleSince {
          idleSince := idleSince[w := now];
        } else if steady {
          QuietGoesOn(history, w, slots, idleSince[w], at, now);
        }
      } else {
        idleSince := idleSince - {w};
      }
      lastServed := lastServed[w := served];
    }

    /** What is known of one worker at time `t`. */
    ghost predicate Noted(w: nat, slots: set<Slot>, steady: bool, t: real)
      reads this
    {
      w in idleSince ==> w in lastServed && (steady ==> IdleOk(history, w, slots, idleSince[w], lastServed[w], t))
    }

    /** Worker `w` has had its share of a sample. */
    ghost predicate Done(w: nat, slots: set<Slot>, now: real, idle0: map<nat, real>, last0: map<nat, nat>)
      reads this
    {
      && (w in idleSince <==> IdleNow(history, w, slots, now, last0))
      && (w in idleSince ==> idleSince[w] == if w in idle0 then idle0[w] else now)
      && w in lastServed && lastServed[w] == Begun(history, w, slots, now)
      && Noted(w, slots, w !in moved || w !in idle0, now)
    }

    /** It has not. */
    ghost predicate Untouched(w: nat, idle0: map<nat, real>, last0: map<nat, nat>)
      reads this
    {
      && (w in idleSince <==> w in idle0) && (w in idleSince ==> idleSince[w] == idle0[w])
      && (w in lastServed <==> w in last0) && (w in lastServed ==> lastServed[w] == last0[w])
    }

    method ObserveEach(now: real, rows: map<Slot, Row>, groups: map<nat, set<Slot>>)
      requires at <= now && Sampled(history, rows, groups, now) && idleSince.Keys <= groups.Keys
      requires forall w :: w in groups ==> Noted(w, groups[w], w !in moved, at)
      modifies this`idleSince, this`lastServed
      ensures forall w :: w in groups ==> Done(w, groups[w], now, old(idleSince), old(lastServed))
      ensures forall w: nat :: w !in groups ==> Untouched(w, old(idleSince), old(lastServed))
    {
      var todo := groups.Keys;
      while todo != {}
        invariant todo <= groups.Keys
        invariant forall w :: w in todo ==> Noted(w, groups[w], w !in moved, at)
        invariant forall w: nat :: w in todo || w !in groups ==> Untouched(w, old(idleSince), old(lastServed))
        invariant forall w :: w in groups && w !in todo ==> Done(w, groups[w], now, old(idleSince), old(lastServed))
        decreases todo
      {
        var w :| w in todo;
        ObserveOne(now, rows, w, groups[w], w !in moved);
        todo := todo - {w};
      }
    }

    /** `observe_idle`. */
    method Observe(now: real, rows: map<Slot, Row>, groups: map<nat, set<Slot>>)
      requires Valid() && at <= now && Sampled(history, rows, groups, now)
      modifies this`idleSince, this`lastServed, this`seen, this`at, this`moved
      ensures Valid() && at == now && seen == groups && idleSince.Keys <= groups.Keys
      ensures Observed(history, groups, now, old(idleSince), old(lastServed), idleSince, lastServed)
      ensures forall w :: w in moved ==>
        w in old(idleSince) && w in idleSince && (w in old(moved) || groups[w] != old(seen)[w])
    {
      var gone := idleSince.Keys - groups.Keys;
      idleSince, lastServed := idleSince - gone, lastServed - gone;
      moved := set w | w in idleSince && (w in moved || groups[w] != seen[w]);
      ghost var idle0, last0 := idleSince, lastServed;
      ObserveEach(now, rows, groups);
      Finish(now, groups, old(idleSince), old(lastServed), idle0, last0);
      seen, at, moved := groups, now, moved * idleSince.Keys;
    }

    /** The workers' shares make up the sample. */
    lemma Finish(now: real, groups: map<nat, set<Slot>>, idle0: map<nat, real>, last0: map<nat, nat>,
                 idle1: map<nat, real>, last1: map<nat, nat>)
      requires idle1 == idle0 - (idle0.Keys - groups.Keys) && last1 == last0 - (idle0.Keys - groups.Keys)
      requires forall w :: w in groups ==> Done(w, groups[w], now, idle1, last1)
      requires forall w: nat :: w !in groups ==> Untouched(w, idle1, last1)
      ensures Observed(history, groups, now, idle0, last0, idleSince, lastServed) && idleSince.Keys <= groups.Keys
    {
      forall w: nat ensures w in idleSince ==> w in groups {
        assert w !in groups ==> Untouched(w, idle1, last1);
      }
      forall w: nat
        ensures w in lastServed <==> w in groups || (w in last0 && w !in idle0)
        ensures w in lastServed ==> lastServed[w] == if w in groups then Begun(history, w, groups[w], now) else last0[w]
      {
        assert w !in groups ==> Untouched(w, idle1, last1);
        assert w in groups ==> Done(w, groups[w], now, idle1, last1);
      }
    }

    /** The worker idle longest, if it has been idle long enough: one that kept its slots has held no request
        at any instant of the last `scaleDownAfter`. */
    method Candidate(now: real) returns (r: Option<nat>)
      requires Valid() && at == now
      ensures r.Some? ==> r.value in idleSince && r.value in seen
      ensures r.Some? ==> Oldest(idleSince, r.value) && now - idleSince[r.value] >= scaleDownAfter
      ensures r.Some? && r.value !in moved ==> Quiet(history, r.value, seen[r.value], now - scaleDownAfter, now)
      ensures r.None? ==> forall w :: w in idleSince ==> now - idleSince[w] < scaleDownAfter
    {
      if idleSince == map[] {
        return None;
      }
      var w := Longest(idleSince);
      if now - idleSince[w] < scaleDownAfter {
        return None;
      }
      return Some(w);
    }
  }

  /** `min_by` over the idle list. */
  method Longest(idle: map<nat, real>) returns (w: nat)
    requires idle != map[]
    ensures Oldest(idle, w)
  {
    w :| w in idle;
    var todo := idle.Keys - {w};
    while todo != {}
      invariant w in idle && todo <= idle.Keys && forall v :: v in idle && v !in todo ==> idle[w] <= idle[v]
      decreases todo
    {
      var v :| v in todo;
      if idle[v] < idle[w] {
        w := v;
      }
      todo := todo - {v};
    }
  }
}
