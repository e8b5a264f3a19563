/** The pool scaler driving the threaded pool, with threads exiting and wedged slots replaced in between. */
module ThreadedScaling {
  import opened Options
  import opened SlotBanks
  import opened SlotTables
  import opened ThreadedPools
  import opened PoolScalers
  import opened Scaling

  /** What happens between ticks: a thread's end, or a slot found wedged. */
  datatype Happening = Exit(id: Slot) | Wedge(id: Slot)

  /** A worker goes home only at a tick, and only after holding nothing for long enough. */
  ghost predicate SentHomeIdle(h: seq<Service>, e: Event<Happening>, c: Change, patience: real) {
    c.Shrank? ==> e.Tick? && Quiet(h, c.index, c.slots, e.now - patience, e.now)
  }

  /** What the pool and its scaler know at one moment: who counts, who may be retired, what was noted. */
  datatype Moment = Moment(
    active: set<nat>,
    groups: map<nat, set<Slot>>,
    idle: map<nat, real>,
    last: map<nat, nat>,
    depths: seq<nat>)

  /** What is done about a sample, and what is kept of it: the worker idle longest goes home, unless nobody is to. */
  ghost predicate Decided(p: Policy, m: Moment, now: real, idle: map<nat, real>, last: map<nat, nat>, c: Change,
                          n: Moment) {
    if NobodyToSpare(p, |m.active|, idle, now) then c == Same && n.idle == idle && n.last == last
    else
      && c.Shrank? && Oldest(idle, c.index) && c.index in m.groups && c.slots == m.groups[c.index]
      && n.idle == idle - {c.index} && n.last == last - {c.index}
  }

  /** One tick of the policy: grow under pressure if there is room; otherwise sample and decide. */
  ghost predicate Ticked(p: Policy, m: Moment, now: real, queued: nat, c: Change, n: Moment) {
    && n.depths == m.depths + [queued] && Moves(m.active, c, n.active)
    && if Pressed(n.depths, PRESSURE_TICKS) then
         !c.Shrank? && (c.Grew? <==> |m.active| < p.ceiling) && n.idle == m.idle && n.last == m.last
       else
         exists idle: map<nat, real>, last: map<nat, nat> ::
           Observed(p.history, m.groups, now, m.idle, m.last, idle, last) && Decided(p, m, now, idle, last, c, n)
  }

  ghost predicate Next(p: Policy, m: Moment, e: Event<Happening>, c: Change, n: Moment) {
    match e
    case Tick(now, queued) => Ticked(p, m, now, queued, c, n)
    case Other(_) => c == Same && n == m.(groups := n.groups)
  }

  /** A run, moment by moment. */
  ghost predicate Ran(p: Policy, events: seq<Event<Happening>>, changes: seq<Change>, trace: seq<Moment>) {
    && |changes| == |events| && |trace| == |events| + 1
    && forall i :: 0 <= i < |events| ==> Next(p, trace[i], events[i], changes[i], trace[i + 1])
  }

  lemma RanOn(p: Policy, events: seq<Event<Happening>>, k: nat, changes: seq<Change>, trace: seq<Moment>, c: Change,
              n: Moment)
    requires k < |events| && Ran(p, events[..k], changes, trace) && Next(p, trace[k], events[k], c, n)
    ensures Ran(p, events[..k + 1], changes + [c], trace + [n])
  {
    assert events[..k + 1][..k] == events[..k];
  }

  /** What a tick without pressure does, in one line: exactly if some worker can be spared and one of those listed by
      the sample has been idle long enough, one goes home, and it is the one idle longest. */
  lemma ShrinksExactly(p: Policy, m: Moment, now: real, queued: nat, c: Change, n: Moment)
    requires Ticked(p, m, now, queued, c, n) && !Pressed(m.depths + [queued], PRESSURE_TICKS)
    ensures exists idle: map<nat, real>, last: map<nat, nat> ::
              && Observed(p.history, m.groups, now, m.idle, m.last, idle, last)
              && (c.Shrank? <==> |m.active| > p.floor && exists w :: w in idle && now - idle[w] >= p.scaleDownAfter)
              && (c.Shrank? ==> Oldest(idle, c.index) && now - idle[c.index] >= p.scaleDownAfter)
  {
    var idle, last :|
      Observed(p.history, m.groups, now, m.idle, m.last, idle, last) && Decided(p, m, now, idle, last, c, n);
  }

  class ElasticPool {
    const pool: ThreadedPool
    const scaler: PoolScaler
    const history: seq<Service>

    /** A server's pool: as many groups as its floor to begin with. */
    constructor (workers: nat, maxWorkers: nat, threads: nat, scaleDownAfter: real, history: seq<Service>)
      requires workers <= maxWorkers
      ensures Valid() && fresh(pool) && fresh(pool.bank) && fresh(scaler)
      ensures scaler.floor == workers && scaler.ceiling == maxWorkers && scaler.at == 0.0
      ensures scaler.scaleDownAfter == scaleDownAfter && this.history == history
    {
      pool := new ThreadedPool(threads);
      scaler := new PoolScaler(workers, maxWorkers, scaleDownAfter, history);
      this.history := history;
      new;
      pool.Start(workers);
    }

    ghost predicate Valid()
      reads this, pool, pool.bank, scaler
    {
      && pool.Valid() && scaler.Valid() && scaler.history == history && scaler.moved == {}
      && Within(scaler.floor, |pool.Active()|, scaler.ceiling)
      && scaler.idleSince.Keys <= pool.Active()
      && Tracks(scaler.idleSince.Keys, scaler.seen, pool.groups)
    }

    ghost function PolicyOf(): Policy
      reads this, scaler
    {
      Policy(scaler.floor, scaler.ceiling, scaler.scaleDownAfter, history)
    }

    ghost function Now(): Moment
      requires pool.Valid()
      reads this, pool, pool.bank, scaler
    {
      Moment(pool.Active(), pool.Offered(), scaler.idleSince, scaler.lastServed, scaler.depths)
    }

    /** `worker_stats`, read from the history. */
    method WorkerStats(now: real) returns (rows: map<Slot, Row>)
      requires pool.Valid()
      ensures Sampled(history, rows, pool.groups, now)
    {
      var owner := pool.slotToGroup;
      rows := map id | id in owner :: Row(Begun(history, owner[id], {id}, now), InHand(history, owner[id], {id}, now));
      forall w, id | w in pool.groups && id in pool.groups[w] ensures RowTrue(history, rows, w, id, now) {
        assert Holds(pool.groups, w, id);
        assert Points(owner, id, w);
      }
    }

    /** One sample of every worker that may be retired. */
    method Sample(now: real)
      requires Valid() && scaler.at <= now
      modifies pool`groups, pool`slotToGroup, pool`retiring, pool.bank
      modifies scaler`idleSince, scaler`lastServed, scaler`seen, scaler`at, scaler`moved
      ensures Valid() && scaler.at == now && pool.Active() == old(pool.Active())
      ensures pool.Offered() == old(pool.Offered()) && scaler.idleSince.Keys <= pool.Offered().Keys
      ensures Observed(history, old(pool.Offered()), now, old(scaler.idleSince), old(scaler.lastServed),
                       scaler.idleSince, scaler.lastServed)
    {
      var rows := WorkerStats(now);
      var groups := pool.Retirable();
      assert Sampled(history, rows, groups, now) by {
        forall w, id | w in groups && id in groups[w] ensures RowTrue(history, rows, w, id, now) {
          assert w in old(pool.groups) && groups[w] == old(pool.groups)[w];
        }
      }
      scaler.Observe(now, rows, groups);
    }

    /** One worker less, if one has been idle long enough. */
    method RetireIdle(now: real) returns (c: Change)
      requires Valid() && scaler.at == now && |pool.Active()| > scaler.floor
      requires scaler.idleSince.Keys <= pool.Offered().Keys
      modifies pool`retiring, scaler`idleSince, scaler`lastServed
      ensures Valid() && Moves(old(pool.Active()), c, pool.Active())
      ensures c.Shrank? ==> Quiet(history, c.index, c.slots, now - scaler.scaleDownAfter, now)
      ensures Decided(PolicyOf(), old(Now()), now, old(scaler.idleSince), old(scaler.lastServed), c, Now())
    {
      c := Same;
      var w := scaler.Candidate(now);
      if w.Some? {
        var ok := pool.Retire(w.value);
        if ok {
          scaler.Forget(w.value);
          c := Shrank(w.value, pool.groups[w.value]);
        }
      }
    }

    /** One worker more, if there is room. */
    method GrowIfRoom() returns (c: Change)
      requires Valid()
      modifies pool, pool.bank
      ensures Valid() && !c.Shrank? && Moves(old(pool.Active()), c, pool.Active())
      ensures c.Grew? <==> |old(pool.Active())| < scaler.ceiling
    {
      c := Same;
      var n := pool.ActiveCount();
      if n < scaler.ceiling {
        var index := pool.Grow();
        c := Grew(index);
      }
    }

    /** What is done about a sample. */
    method Decide(now: real) returns (c: Change)
      requires Valid() && scaler.at == now && scaler.idleSince.Keys <= pool.Offered().Keys
      modifies pool`retiring, scaler`idleSince, scaler`lastServed
      ensures Valid() && Moves(old(pool.Active()), c, pool.Active())
      ensures c.Shrank? ==> Quiet(history, c.index, c.slots, now - scaler.scaleDownAfter, now)
      ensures Decided(PolicyOf(), old(Now()), now, old(scaler.idleSince), old(scaler.lastServed), c, Now())
    {
      c := Same;
      var n := pool.ActiveCount();
      if n > scaler.floor {
        c := RetireIdle(now);
      }
    }

    /** `step`: exactly one tick of the policy, with at most one worker more or less, and never past a bound. */
    method Step(now: real, queued: nat) returns (c: Change)
      requires Valid() && scaler.at <= now
      modifies pool, pool.bank, scaler
      ensures Valid() && scaler.at <= now && Ticked(PolicyOf(), old(Now()), now, queued, c, Now())
      ensures c.Grew? <==> Pressed(scaler.depths, PRESSURE_TICKS) && |old(pool.Active())| < scaler.ceiling
      ensures c.Shrank? ==> !Pressed(scaler.depths, PRESSURE_TICKS) && |old(pool.Active())| > scaler.floor
      ensures SentHomeIdle(history, Tick(now, queued), c, scaler.scaleDownAfter)
    {
      var pressed := scaler.NotePressure(queued);
      if pressed {
        c := GrowIfRoom();
      } else {
        c := Relax(now);
      }
    }

    /** A tick that finds no pressure. */
    method Relax(now: real) returns (c: Change)
      requires Valid() && scaler.at <= now
      modifies pool`groups, pool`slotToGroup, pool`retiring, pool.bank
      modifies scaler`idleSince, scaler`lastServed, scaler`seen, scaler`at, scaler`moved
      ensures Valid() && scaler.at == now && Moves(old(pool.Active()), c, pool.Active())
      ensures c.Shrank? ==> Quiet(history, c.index, c.slots, now - scaler.scaleDownAfter, now)
      ensures exists idle: map<nat, real>, last: map<nat, nat> ::
                && Observed(history, old(pool.Offered()), now, old(scaler.idleSince), old(scaler.lastServed), idle,
                   last)
                && Decided(PolicyOf(), old(Now()), now, idle, last, c, Now())
    {
      Sample(now);
      ghost var seen := Now();
      c := Decide(now);
      SameDecision(PolicyOf(), old(Now()), seen, now, c, Now());
    }

    /** One event of a run. */
    method Happens(e: Event<Happening>) returns (c: Change)
      requires Valid() && (e.Tick? ==> scaler.at <= e.now)
      modifies pool, pool.bank, scaler
      ensures Valid() && Next(PolicyOf(), old(Now()), e, c, Now()) && Moves(old(pool.Active()), c, pool.Active())
      ensures scaler.at == old(scaler.at) || (e.Tick? && scaler.at <= e.now)
      ensures SentHomeIdle(history, e, c, scaler.scaleDownAfter)
    {
      c := Same;
      match e
      case Tick(now, queued) => c := Step(now, queued);
      case Other(Exit(id)) => pool.Exits(id);
      case Other(Wedge(id)) => var _ := pool.Replace(id);
    }

    /** Every run: every tick is one of the policy, the count stays between floor and ceiling and moves by at most
        one at a time, and no worker is sent home that held a request in its last `scaleDownAfter`. */
    method Run(events: seq<Event<Happening>>)
      returns (changes: seq<Change>, counts: seq<nat>, ghost trace: seq<Moment>)
      requires Valid() && InOrder(events, scaler.at)
      modifies pool, pool.bank, scaler
      ensures Valid() && |counts| == |events| + 1 && counts[0] == |old(pool.Active())|
      ensures Followed(counts, scaler.floor, |pool.Active()|, scaler.ceiling)
      ensures AllSentHomeIdle(history, events, changes, scaler.scaleDownAfter)
      ensures Ran(PolicyOf(), events, changes, trace) && trace[0] == old(Now()) && trace[|events|] == Now()
    {
      changes, counts, trace := [], [|pool.Active()|], [Now()];
      for k := 0 to |events|
        invariant Valid() && |counts| == k + 1 && counts[0] == |old(pool.Active())|
        invariant InOrder(events[k..], scaler.at)
        invariant Followed(counts, scaler.floor, |pool.Active()|, scaler.ceiling)
        invariant AllSentHomeIdle(history, events[..k], changes, scaler.scaleDownAfter)
        invariant Ran(PolicyOf(), events[..k], changes, trace) && trace[0] == old(Now()) && trace[k] == Now()
      {
        ghost var before, at := pool.Active(), scaler.at;
        InOrderHead(events, k, at);
        var c := Happens(events[k]);
        InOrderTail(events, k, at, scaler.at);
        AllIdleOn(history, events, k, changes, c, scaler.scaleDownAfter);
        RanOn(PolicyOf(), events, k, changes, trace, c, Now());
        MovesByOne(before, c, pool.Active());
        FollowOn(counts, scaler.floor, |before|, |pool.Active()|, scaler.ceiling);
        changes, counts, trace := changes + [c], counts + [|pool.Active()|], trace + [Now()];
      }
      assert events[..|events|] == events;
    }
  }

  /** The decision is about who counts and who may be retired, which the sample leaves as they were. */
  lemma SameDecision(p: Policy, m: Moment, seen: Moment, now: real, c: Change, n: Moment)
    requires seen.active == m.active && seen.groups == m.groups && Decided(p, seen, now, seen.idle, seen.last, c, n)
    ensures Decided(p, m, now, seen.idle, seen.last, c, n)
  {
  }

  ghost predicate AllSentHomeIdle(h: seq<Service>, events: seq<Event<Happening>>, changes: seq<Change>,
                                  patience: real) {
    |changes| == |events| && forall i :: 0 <= i < |events| ==> SentHomeIdle(h, events[i], changes[i], patience)
  }

  lemma AllIdleOn(h: seq<Service>, events: seq<Event<Happening>>, k: nat, changes: seq<Change>, c: Change,
                  patience: real)
    requires k < |events| && AllSentHomeIdle(h, events[..k], changes, patience)
    requires SentHomeIdle(h, events[k], c, patience)
    ensures AllSentHomeIdle(h, events[..k + 1], changes + [c], patience)
  {
  }

  ghost predicate Tracks(idle: set<nat>, seen: map<nat, set<Slot>>, groups: map<nat, set<Slot>>) {
    forall w :: w in idle ==> w in seen && w in groups && seen[w] == groups[w]
  }
}
