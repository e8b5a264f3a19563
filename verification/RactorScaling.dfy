/** The pool scaler driving the ractor pool, with ractors starting, returning, crashing and being replaced
    in between. */
module RactorScaling {
  import opened Options
  import opened SlotBanks
  import opened SlotTables
  import opened RactorSupervisors
  import opened PoolScalers
  import opened Scaling

  /** What happens between ticks: a supervisor starts a ractor, or finds that it returned or crashed; a slot
      is found wedged. */
  datatype Happening = Spawned(worker: nat) | Returned(worker: nat) | Crashed(worker: nat) | Wedged(slot: Slot)

  /** What the pool and its scaler know at one moment. */
  datatype Moment = Moment(
    live: set<nat>,
    retiring: set<nat>,
    replaced: set<nat>,
    running: set<nat>,
    slots: map<nat, set<Slot>>,
    owner: map<Slot, nat>,
    next: nat,
    idle: map<nat, real>,
    last: map<nat, nat>,
    depths: seq<nat>)

  /** The workers that count. */
  function Counted(m: Moment): set<nat> {
    m.live - m.replaced - m.retiring
  }

  /** The workers the scaler may retire. */
  function Groups(m: Moment): map<nat, set<Slot>> {
    map w | w in Counted(m) && w in m.slots :: m.slots[w]
  }

  predicate Replaceable(m: Moment, id: Slot) {
    id in m.owner && m.owner[id] !in m.replaced
  }

  /** One of the happenings; what cannot happen changes nothing. */
  ghost predicate Happened(m: Moment, e: Happening, n: Moment) {
    match e
    case Spawned(w) =>
      if w in m.live && w !in m.running then
        w in n.slots && n == m.(running := m.running + {w}, slots := m.slots[w := n.slots[w]],
                                owner := m.owner + Owned(n.slots[w], w))
      else n == m
    case Returned(w) =>
      n == if w in m.running then
             m.(live := m.live - {w}, retiring := m.retiring - {w}, running := m.running - {w})
           else m
    case Crashed(w) =>
      n == if w in m.running then m.(retiring := m.retiring - {w}, running := m.running - {w}) else m
    case Wedged(id) =>
      n == if Replaceable(m, id) then
             m.(replaced := m.replaced + {m.owner[id]}, live := m.live + {m.next}, next := m.next + 1)
           else m
  }

  /** Worker `w` told to leave, and forgotten by the scaler. */
  function SentHome(m: Moment, w: nat): Moment {
    m.(retiring := m.retiring + {w}, idle := m.idle - {w}, last := m.last - {w})
  }

  /** Nobody to send home: no worker to spare, or none idle long enough. */
  ghost predicate Settled(p: Policy, m: Moment, now: real) {
    NobodyToSpare(p, |Counted(m)|, m.idle, now)
  }

  /** What is done about a sample: the worker idle longest goes home. */
  ghost predicate Decided(p: Policy, m: Moment, now: real, n: Moment) {
    if Settled(p, m, now) then n == m else exists w :: Oldest(m.idle, w) && n == SentHome(m, w)
  }

  /** One tick of the policy, by way of the idle list and the totals that its sample yields. */
  ghost predicate TickedVia(p: Policy, m: Moment, now: real, queued: nat, n: Moment, idle: map<nat, real>,
                            last: map<nat, nat>) {
    var seen := m.(depths := m.depths + [queued]);
    if Pressed(seen.depths, PRESSURE_TICKS) then
      n == if |Counted(m)| < p.ceiling then seen.(live := m.live + {m.next}, next := m.next + 1) else seen
    else
      && Observed(p.history, Groups(m), now, m.idle, m.last, idle, last)
      && Decided(p, seen.(idle := idle, last := last), now, n)
  }

  ghost predicate Ticked(p: Policy, m: Moment, now: real, queued: nat, n: Moment) {
    exists idle: map<nat, real>, last: map<nat, nat> :: TickedVia(p, m, now, queued, n, idle, last)
  }

  ghost predicate Next(p: Policy, m: Moment, e: Event<Happening>, n: Moment) {
    match e
    case Tick(now, queued) => Ticked(p, m, now, queued, n)
    case Other(what) => Happened(m, what, n)
  }

  /** A run, moment by moment. */
  ghost predicate Run(p: Policy, events: seq<Event<Happening>>, trace: seq<Moment>) {
    |trace| == |events| + 1 && forall i :: 0 <= i < |events| ==> Next(p, trace[i], events[i], trace[i + 1])
  }

  lemma RunOn(p: Policy, events: seq<Event<Happening>>, trace: seq<Moment>, e: Event<Happening>, n: Moment)
    requires Run(p, events, trace) && Next(p, trace[|events|], e, n)
    ensures Run(p, events + [e], trace + [n])
  {
  }

  /** A sample, and what is done about it. */
  lemma RelaxIsTick(p: Policy, m: Moment, now: real, seen: Moment, n: Moment)
    requires m.depths != [] && !Pressed(m.depths, PRESSURE_TICKS)
    requires Observed(p.history, Groups(m), now, m.idle, m.last, seen.idle, seen.last)
    requires seen == m.(idle := seen.idle, last := seen.last) && Decided(p, seen, now, n)
    ensures var d := m.depths; Ticked(p, m.(depths := d[..|d| - 1]), now, d[|d| - 1], n)
  {
    var d := m.depths;
    var was := m.(depths := d[..|d| - 1]);
    assert was.depths + [d[|d| - 1]] == d;
    assert Groups(was) == Groups(m);
    assert TickedVia(p, was, now, d[|d| - 1], n, seen.idle, seen.last);
  }

  class ElasticRactors {
    const pool: RactorSupervisor
    const scaler: PoolScaler
    const history: seq<Service>

    constructor (workers: nat, maxWorkers: nat, threads: nat, scaleDownAfter: real, history: seq<Service>)
      ensures Valid() && fresh(pool) && fresh(pool.bank) && fresh(scaler)
      ensures PolicyOf() == Policy(workers, maxWorkers, scaleDownAfter, history)
      ensures scaler.at == 0.0 && |Counted(Now())| == workers && (forall w: nat :: w in Now().live <==> w < workers)
      ensures Now() == Moment(Now().live, {}, {}, {}, map[], map[], workers, map[], map[], [])
    {
      pool := new RactorSupervisor(workers, threads);
      scaler := new PoolScaler(workers, maxWorkers, scaleDownAfter, history);
      this.history := history;
    }

    ghost predicate Valid()
      reads this, pool, pool.bank, scaler
    {
      pool.Valid() && scaler.Valid() && scaler.history == history
    }

    ghost function PolicyOf(): Policy
      reads this, scaler
    {
      Policy(scaler.floor, scaler.ceiling, scaler.scaleDownAfter, history)
    }

    ghost function Now(): Moment
      reads this, pool, scaler
    {
      Moment(pool.live, pool.retiring, pool.replaced, pool.running.Keys, pool.workerSlots, pool.slotToWorker,
             pool.nextIndex, scaler.idleSince, scaler.lastServed, scaler.depths)
    }

    /** `worker_stats`, read from the history. */
    method WorkerStats(now: real, groups: map<nat, set<Slot>>) returns (rows: map<Slot, Row>)
      requires pool.Valid() && groups.Keys <= pool.live * pool.workerSlots.Keys
      requires forall w :: w in groups ==> groups[w] == pool.workerSlots[w]
      ensures Sampled(history, rows, groups, now)
    {
      var owner := pool.slotToWorker;
      rows := map id | id in owner :: Row(Begun(history, owner[id], {id}, now), InHand(history, owner[id], {id}, now));
      forall w, id | w in groups && id in groups[w] ensures RowTrue(history, rows, w, id, now) {
        assert Points(owner, id, w);
      }
    }

    /** One sample of every worker that may be retired. */
    method Sample(now: real)
      requires Valid() && scaler.at <= now
      modifies scaler`idleSince, scaler`lastServed, scaler`seen, scaler`at, scaler`moved
      ensures Valid() && scaler.at == now && scaler.seen == Groups(Now()) && scaler.idleSince.Keys <= scaler.seen.Keys
      ensures Observed(history, Groups(old(Now())), now, old(scaler.idleSince), old(scaler.lastServed),
                       scaler.idleSince, scaler.lastServed)
    {
      var groups := pool.Retirable();
      var rows := WorkerStats(now, groups);
      assert groups == Groups(Now());
      scaler.Observe(now, rows, groups);
    }

    /** One worker less, if one has been idle long enough. */
    method RetireIdle(now: real) returns (c: Change)
      requires Valid() && scaler.at == now && scaler.idleSince.Keys <= scaler.seen.Keys && scaler.seen == Groups(Now())
      requires |pool.Active()| > scaler.floor
      modifies pool`retiring, pool`retiredSlots, scaler`idleSince, scaler`lastServed
      ensures Valid() && !c.Grew? && Moves(old(pool.Active()), c, pool.Active())
      ensures c.Shrank? && c.index !in scaler.moved ==>
                Quiet(history, c.index, c.slots, now - scaler.scaleDownAfter, now)
      ensures c.Shrank? ==> c.slots <= pool.retiredSlots
      ensures c.Same? <==> Settled(PolicyOf(), old(Now()), now)
      ensures c.Same? ==> Now() == old(Now())
      ensures c.Shrank? ==> Oldest(old(scaler.idleSince), c.index) && Now() == SentHome(old(Now()), c.index)
    {
      c := Same;
      var w := scaler.Candidate(now);
      if w.Some? {
        assert w.value in Groups(Now());
        var ok := pool.Retire(w.value);
        if ok {
          scaler.Forget(w.value);
          c := Shrank(w.value, pool.workerSlots[w.value]);
        }
      }
    }

    /** `step`: exactly one tick of the policy. At most one worker more or less, and never further past a
        bound; a worker sent home that was on the same slots all along held nothing for long enough. */
    method Step(now: real, queued: nat) returns (c: Change)
      requires Valid() && scaler.at <= now
      modifies pool`live, pool`nextIndex, pool`retiring, pool`retiredSlots, scaler
      ensures Valid() && scaler.at <= now && Ticked(PolicyOf(), old(Now()), now, queued, Now())
      ensures Moves(old(pool.Active()), c, pool.Active()) && scaler.depths == old(scaler.depths) + [queued]
      ensures c.Grew? <==> Pressed(scaler.depths, PRESSURE_TICKS) && |old(pool.Active())| < scaler.ceiling
      ensures c.Shrank? ==> !Pressed(scaler.depths, PRESSURE_TICKS) && |old(pool.Active())| > scaler.floor
      ensures c.Shrank? && c.index !in scaler.moved ==>
                Quiet(history, c.index, c.slots, now - scaler.scaleDownAfter, now)
    {
      var pressed := scaler.NotePressure(queued);
      if pressed {
        c := GrowIfRoom();
        assert TickedVia(PolicyOf(), old(Now()), now, queued, Now(), map[], map[]);
      } else {
        c := Relax(now);
      }
    }

    /** One worker more, if there is room. */
    method GrowIfRoom() returns (c: Change)
      requires Valid()
      modifies pool`live, pool`nextIndex
      ensures Valid() && !c.Shrank? && Moves(old(pool.Active()), c, pool.Active())
      ensures c.Grew? <==> |old(pool.Active())| < scaler.ceiling
      ensures Now() == if c.Grew? then old(Now()).(live := old(Now()).live + {old(Now()).next},
              next := old(Now()).next + 1)
                       else old(Now())
    {
      c := Same;
      var n := pool.ActiveCount();
      if n < scaler.ceiling {
        var index := pool.Grow();
        c := Grew(index);
      }
    }

    /** What is done about a sample. */
    method Decide(now: real) returns (c: Change)
      requires Valid() && scaler.at == now && scaler.idleSince.Keys <= scaler.seen.Keys && scaler.seen == Groups(Now())
      modifies pool`retiring, pool`retiredSlots, scaler`idleSince, scaler`lastServed
      ensures Valid() && !c.Grew? && Moves(old(pool.Active()), c, pool.Active())
      ensures c.Shrank? ==> |old(pool.Active())| > scaler.floor
      ensures c.Shrank? && c.index !in scaler.moved ==>
                Quiet(history, c.index, c.slots, now - scaler.scaleDownAfter, now)
      ensures Decided(PolicyOf(), old(Now()), now, Now())
    {
      c := Same;
      var n := pool.ActiveCount();
      if n > scaler.floor {
        c := RetireIdle(now);
      }
    }

    /** A tick that finds no pressure. */
    method Relax(now: real) returns (c: Change)
      requires Valid() && scaler.at <= now && scaler.depths != [] && !Pressed(scaler.depths, PRESSURE_TICKS)
      modifies pool`retiring, pool`retiredSlots
      modifies scaler`idleSince, scaler`lastServed, scaler`seen, scaler`at, scaler`moved
      ensures Valid() && scaler.at == now && !c.Grew? && Moves(old(pool.Active()), c, pool.Active())
      ensures c.Shrank? ==> |old(pool.Active())| > scaler.floor
      ensures c.Shrank? && c.index !in scaler.moved ==>
                Quiet(history, c.index, c.slots, now - scaler.scaleDownAfter, now)
      ensures var d := old(scaler.depths);
        Ticked(PolicyOf(), old(Now()).(depths := d[..|d| - 1]), now, d[|d| - 1], Now())
    {
      Sample(now);
      ghost var seen := Now();
      c := Decide(now);
      RelaxIsTick(PolicyOf(), old(Now()), now, seen, Now());
    }

    /** One of the happenings. */
    method Happens(e: Happening)
      requires Valid()
      modifies pool, pool.bank
      ensures Valid() && Happened(old(Now()), e, Now())
    {
      match e
      case Spawned(w) => if w in pool.live && w !in pool.running { var _ := pool.Spawn(w); }
      case Returned(w) => if w in pool.running { pool.ExitClean(w); }
      case Crashed(w) => if w in pool.running { pool.Crash(w, false); }
      case Wedged(id) => var _ := pool.Replace(id);
    }

    /** One event of a run. */
    method React(e: Event<Happening>)
      requires Valid() && (e.Tick? ==> scaler.at <= e.now)
      modifies pool, pool.bank, scaler
      ensures Valid() && Next(PolicyOf(), old(Now()), e, Now())
      ensures scaler.at == old(scaler.at) || (e.Tick? && scaler.at <= e.now)
    {
      match e
      case Tick(now, queued) => var _ := Step(now, queued);
      case Other(what) => Happens(what);
    }

    /** Every event list, whatever the events do to the count: the pool goes through a run of the policy. */
    method Drive(events: seq<Event<Happening>>) returns (ghost trace: seq<Moment>)
      requires Valid() && InOrder(events, scaler.at)
      modifies pool, pool.bank, scaler
      ensures Valid() && Run(PolicyOf(), events, trace) && trace[0] == old(Now()) && trace[|events|] == Now()
    {
      trace := [Now()];
      for k := 0 to |events|
        invariant Valid() && InOrder(events[k..], scaler.at)
        invariant Run(PolicyOf(), events[..k], trace) && trace[0] == old(Now()) && trace[k] == Now()
      {
        ghost var at := scaler.at;
        InOrderHead(events, k, at);
        React(events[k]);
        InOrderTail(events, k, at, scaler.at);
        RunOn(PolicyOf(), events[..k], trace, events[k], Now());
        assert events[..k + 1] == events[..k] + [events[k]];
        trace := trace + [Now()];
      }
      assert events[..|events|] == events;
    }
  }

  // ----- what every run does to the count

  /** Events that add to the count behind the scaler's back: a worker on its way out crashes, or one that
      no longer counts (on its way out, or gone) is replaced. */
  predicate Surplus(m: Moment, e: Event<Happening>) {
    e.Other? &&
    match e.what
    case Crashed(w) => w in m.running && w in m.retiring && w !in m.replaced
    case Wedged(id) => Replaceable(m, id) && m.owner[id] !in Counted(m)
    case _ => false
  }

  /** Events that take from it: a worker nobody retired returns, as all do once the server drains. */
  predicate Loss(m: Moment, e: Event<Happening>) {
    e.Other? && e.what.Returned? && e.what.worker in m.running && e.what.worker in Counted(m)
  }

  predicate Ok(m: Moment) {
    && m.running <= m.live && m.retiring <= m.live
    && (forall w :: w in m.live ==> w < m.next) && (forall w :: w in m.replaced ==> w < m.next)
    && (forall id :: id in m.owner ==> m.owner[id] < m.next)
  }

  lemma SpawnedCounts(m: Moment, w: nat, n: Moment)
    requires Ok(m) && Happened(m, Spawned(w), n)
    ensures Ok(n) && Counted(n) == Counted(m)
  {
  }

  lemma ReturnedCounts(m: Moment, w: nat, n: Moment)
    requires Ok(m) && Happened(m, Returned(w), n)
    ensures Ok(n) && Counted(n) == if w in m.running then Counted(m) - {w} else Counted(m)
  {
  }

  lemma CrashedCounts(m: Moment, w: nat, n: Moment)
    requires Ok(m) && Happened(m, Crashed(w), n)
    ensures Ok(n) && Counted(n) == if Surplus(m, Other(Crashed(w))) then Counted(m) + {w} else Counted(m)
    ensures Surplus(m, Other(Crashed(w))) ==> w !in Counted(m)
  {
  }

  lemma WedgedCounts(m: Moment, id: Slot, n: Moment)
    requires Ok(m) && Happened(m, Wedged(id), n)
    ensures Ok(n) && m.next !in Counted(m)
    ensures Counted(n) == if Replaceable(m, id) then Counted(m) - {m.owner[id]} + {m.next} else Counted(m)
  {
  }

  lemma Without(s: set<nat>, w: nat)
    ensures |s - {w}| == |s| - if w in s then 1 else 0
  {
    if w in s {
      assert s == (s - {w}) + {w};
    } else {
      assert s - {w} == s;
    }
  }

  /** What a happening does to the count, exactly. */
  lemma HappenedCounts(m: Moment, e: Happening, n: Moment)
    requires Ok(m) && Happened(m, e, n)
    ensures Ok(n)
    ensures |Counted(n)| == |Counted(m)| + (if Surplus(m, Other(e)) then 1 else 0) - if Loss(m, Other(e)) then 1 else 0
  {
    match e
    case Spawned(w) => SpawnedCounts(m, w, n);
    case Returned(w) => ReturnedCounts(m, w, n); Without(Counted(m), w);
    case Crashed(w) => CrashedCounts(m, w, n);
    case Wedged(id) =>
      WedgedCounts(m, id, n);
      if Replaceable(m, id) {
        Without(Counted(m), m.owner[id]);
      }
  }

  lemma GrewCounts(m: Moment, n: Moment)
    requires Ok(m) && Ok(n) && n.live == m.live + {m.next} && n.retiring == m.retiring && n.replaced == m.replaced
    ensures Moves(Counted(m), Grew(m.next), Counted(n))
  {
  }

  lemma ShrankCounts(m: Moment, w: nat, n: Moment)
    requires w in Counted(m) && n.live == m.live && n.retiring == m.retiring + {w} && n.replaced == m.replaced
    ensures Moves(Counted(m), Shrank(w, {}), Counted(n))
  {
  }

  lemma PressedMoves(p: Policy, m: Moment, now: real, queued: nat, n: Moment) returns (c: Change)
    requires Ok(m) && Pressed(m.depths + [queued], PRESSURE_TICKS) && Ticked(p, m, now, queued, n)
    ensures Ok(n) && Moves(Counted(m), c, Counted(n)) && !c.Shrank? && (c.Grew? ==> |Counted(m)| < p.ceiling)
  {
    if |Counted(m)| < p.ceiling {
      GrewCounts(m, n);
      c := Grew(m.next);
    } else {
      c := Same;
    }
  }

  lemma DecidedMoves(p: Policy, m: Moment, now: real, n: Moment) returns (c: Change)
    requires Ok(m) && Decided(p, m, now, n) && m.idle.Keys <= Counted(m)
    ensures Ok(n) && Moves(Counted(m), c, Counted(n)) && !c.Grew? && (c.Shrank? ==> |Counted(m)| > p.floor)
  {
    c := Same;
    if !Settled(p, m, now) {
      var w :| Oldest(m.idle, w) && n == SentHome(m, w);
      ShrankCounts(m, w, n);
      c := Shrank(w, {});
    }
  }

  lemma RelaxedMoves(p: Policy, m: Moment, now: real, queued: nat, n: Moment) returns (c: Change)
    requires Ok(m) && !Pressed(m.depths + [queued], PRESSURE_TICKS) && Ticked(p, m, now, queued, n)
    ensures Ok(n) && Moves(Counted(m), c, Counted(n)) && !c.Grew? && (c.Shrank? ==> |Counted(m)| > p.floor)
  {
    var idle, last :| TickedVia(p, m, now, queued, n, idle, last);
    var seen := m.(depths := m.depths + [queued], idle := idle, last := last);
    assert Counted(seen) == Counted(m);
    forall w | w in idle ensures w in Counted(m) {
      assert w in Groups(m);
    }
    c := DecidedMoves(p, seen, now, n);
  }

  /** And a tick: at most one up, below the ceiling, or one down, above the floor. */
  lemma TickedCounts(p: Policy, m: Moment, now: real, queued: nat, n: Moment)
    requires Ok(m) && Ticked(p, m, now, queued, n)
    ensures Ok(n) && OneApart(|Counted(m)|, |Counted(n)|)
    ensures |Counted(n)| > |Counted(m)| ==> |Counted(m)| < p.ceiling
    ensures |Counted(n)| < |Counted(m)| ==> |Counted(m)| > p.floor
  {
    var c;
    if Pressed(m.depths + [queued], PRESSURE_TICKS) {
      c := PressedMoves(p, m, now, queued, n);
    } else {
      c := RelaxedMoves(p, m, now, queued, n);
    }
    MovesByOne(Counted(m), c, Counted(n));
  }

  /** Any event: up only below the ceiling or by a surplus, down only above the floor or by a loss. */
  lemma NextCounts(p: Policy, m: Moment, e: Event<Happening>, n: Moment)
    requires Ok(m) && Next(p, m, e, n)
    ensures Ok(n) && OneApart(|Counted(m)|, |Counted(n)|)
    ensures |Counted(n)| > |Counted(m)| ==> |Counted(m)| < p.ceiling || Surplus(m, e)
    ensures |Counted(n)| < |Counted(m)| ==> |Counted(m)| > p.floor || Loss(m, e)
    ensures (Surplus(m, e) ==> |Counted(n)| > |Counted(m)|) && (Loss(m, e) ==> |Counted(n)| < |Counted(m)|)
  {
    if e.Tick? {
      TickedCounts(p, m, e.now, e.queued, n);
    } else {
      HappenedCounts(m, e.what, n);
    }
  }

  lemma RunStep(p: Policy, events: seq<Event<Happening>>, trace: seq<Moment>, i: nat)
    requires Run(p, events, trace) && i < |events| && Ok(trace[i])
    ensures Ok(trace[i + 1]) && OneApart(|Counted(trace[i])|, |Counted(trace[i + 1])|)
    ensures |Counted(trace[i + 1])| > |Counted(trace[i])| ==>
            |Counted(trace[i])| < p.ceiling || Surplus(trace[i], events[i])
    ensures |Counted(trace[i + 1])| < |Counted(trace[i])| ==> |Counted(trace[i])| > p.floor || Loss(trace[i], events[i])
  {
    assert Next(p, trace[i], events[i], trace[i + 1]);
    NextCounts(p, trace[i], events[i], trace[i + 1]);
  }

  function Surpluses(events: seq<Event<Happening>>, trace: seq<Moment>, k: nat): nat
    requires k <= |events| <= |trace|
  {
    if k == 0 then 0 else Surpluses(events, trace, k - 1) + if Surplus(trace[k - 1], events[k - 1]) then 1 else 0
  }

  function Losses(events: seq<Event<Happening>>, trace: seq<Moment>, k: nat): nat
    requires k <= |events| <= |trace|
  {
    if k == 0 then 0 else Losses(events, trace, k - 1) + if Loss(trace[k - 1], events[k - 1]) then 1 else 0
  }

  /** In every run the count is past the ceiling by no more than the surplus events so far and below the floor by
      no more than the losses, and one event moves it by at most one: so a run without either stays in bounds. */
  lemma {:induction false} EveryRun(p: Policy, events: seq<Event<Happening>>, trace: seq<Moment>, k: nat)
    requires Run(p, events, trace) && Ok(trace[0]) && Within(p.floor, |Counted(trace[0])|, p.ceiling) && k <= |events|
    ensures Ok(trace[k])
    ensures |Counted(trace[k])| <= p.ceiling + Surpluses(events, trace, k)
    ensures p.floor <= |Counted(trace[k])| + Losses(events, trace, k)
    ensures k > 0 ==> OneApart(|Counted(trace[k - 1])|, |Counted(trace[k])|)
  {
    if k > 0 {
      EveryRun(p, events, trace, k - 1);
      RunStep(p, events, trace, k - 1);
    }
  }

  /** And it is exact: from the ceiling, an event leads past it if and only if it is a surplus; from the floor,
      below it if and only if it is a loss. */
  lemma ExactlyThen(p: Policy, m: Moment, e: Event<Happening>, n: Moment)
    requires Ok(m) && Next(p, m, e, n)
    ensures |Counted(m)| == p.ceiling ==> (|Counted(n)| > p.ceiling <==> Surplus(m, e))
    ensures |Counted(m)| == p.floor ==> (|Counted(n)| < p.floor <==> Loss(m, e))
  {
    NextCounts(p, m, e, n);
  }

  // ----- past the ceiling

  /** Between one worker and two: worker 1 joins under pressure, worker 0 is sent home idle, worker 2 joins
      under pressure in its place, and worker 0 crashes before it has left. */
  function Overshoot(): seq<Event<Happening>> {
    [Other(Spawned(0)), Tick(0.0, 1), Tick(1.0, 1), Other(Spawned(1)), Tick(2.0, 0), Tick(3.0, 0),
     Tick(4.0, 1), Tick(5.0, 1), Other(Crashed(0))]
  }

  /** The part of a moment that does not depend on which slots the workers got. */
  datatype Gist = Gist(live: set<nat>, retiring: set<nat>, running: set<nat>, next: nat,
                       idle: map<nat, real>, last: map<nat, nat>, depths: seq<nat>)

  ghost predicate At(m: Moment, g: Gist) {
    && m.live == g.live && m.retiring == g.retiring && m.replaced == {}
    && m.running == g.running && m.slots.Keys == g.running
    && m.next == g.next && m.idle == g.idle && m.last == g.last && m.depths == g.depths
  }

  /** A tick under pressure with room. */
  lemma GrowTick(p: Policy, m: Moment, now: real, queued: nat, n: Moment)
    requires Ticked(p, m, now, queued, n) && Pressed(m.depths + [queued], PRESSURE_TICKS) && |Counted(m)| < p.ceiling
    ensures n == m.(live := m.live + {m.next}, next := m.next + 1, depths := m.depths + [queued])
  {
  }

  /** The moment a sample makes, when no worker ever had a request. */
  function QuietlySeen(m: Moment, now: real, queued: nat): Moment {
    m.(depths := m.depths + [queued], idle := QuietIdle(Groups(m).Keys, now, m.idle, m.last),
       last := QuietLast(Groups(m).Keys, m.idle, m.last))
  }

  lemma QuietTick(p: Policy, m: Moment, now: real, queued: nat, n: Moment)
    requires Ticked(p, m, now, queued, n) && !Pressed(m.depths + [queued], PRESSURE_TICKS) && p.history == []
    ensures Decided(p, QuietlySeen(m, now, queued), now, n)
  {
    var idle, last :| TickedVia(p, m, now, queued, n, idle, last);
    QuietlyObserved(Groups(m), now, m.idle, m.last, idle, last);
  }

  const TIGHT := Policy(1, 2, 1.0, [])

  lemma SpawnAt(m: Moment, g: Gist, w: nat, n: Moment)
    requires At(m, g) && w in g.live && w !in g.running && Happened(m, Spawned(w), n)
    ensures At(n, g.(running := g.running + {w}))
  {
  }

  lemma GrowAt(m: Moment, g: Gist, now: real, queued: nat, n: Moment)
    requires At(m, g) && Pressed(g.depths + [queued], PRESSURE_TICKS) && |g.live - g.retiring| < 2
    requires Ticked(TIGHT, m, now, queued, n)
    ensures At(n, g.(live := g.live + {g.next}, next := g.next + 1, depths := g.depths + [queued]))
  {
    assert Counted(m) == g.live - g.retiring;
    GrowTick(TIGHT, m, now, queued, n);
  }

  /** What a sample makes of it. */
  function Sampling(g: Gist, now: real, queued: nat): Gist {
    var groups := (g.live - g.retiring) * g.running;
    g.(depths := g.depths + [queued], idle := QuietIdle(groups, now, g.idle, g.last), last := QuietLast(groups,
        g.idle, g.last))
  }

  lemma QuietAt(m: Moment, g: Gist, now: real, queued: nat, n: Moment, sampled: Gist) returns (seen: Moment)
    requires At(m, g) && !Pressed(g.depths + [queued], PRESSURE_TICKS) && Ticked(TIGHT, m, now, queued, n)
    requires Sampling(g, now, queued) == sampled
    ensures At(seen, sampled) && Decided(TIGHT, seen, now, n)
  {
    seen := QuietlySeen(m, now, queued);
    QuietTick(TIGHT, m, now, queued, n);
    assert Groups(m).Keys == (g.live - g.retiring) * g.running;
  }

  lemma StayAt(m: Moment, g: Gist, now: real, n: Moment)
    requires At(m, g) && Decided(TIGHT, m, now, n)
    requires |g.live - g.retiring| <= 1 || forall w :: w in g.idle ==> now - g.idle[w] < 1.0
    ensures At(n, g)
  {
    assert Counted(m) == g.live - g.retiring;
  }

  lemma LeaverIs(p: Policy, m: Moment, now: real, n: Moment, w: nat)
    requires Decided(p, m, now, n) && |Counted(m)| > p.floor && w in m.idle && now - m.idle[w] >= p.scaleDownAfter
    requires forall v :: v in m.idle && v != w ==> m.idle[w] < m.idle[v]
    ensures n == SentHome(m, w)
  {
    var v :| Oldest(m.idle, v) && n == SentHome(m, v);
    assert v == w;
  }

  const ONE := Gist({0}, {}, {}, 1, map[], map[], [])
  const ONE_RUNS := Gist({0}, {}, {0}, 1, map[], map[], [])
  const ONE_SEEN := Gist({0}, {}, {0}, 1, map[], map[0 := 0], [1])
  const TWO := Gist({0, 1}, {}, {0}, 2, map[], map[0 := 0], [1, 1])
  const TWO_RUN := Gist({0, 1}, {}, {0, 1}, 2, map[], map[0 := 0], [1, 1])
  const ONE_IDLE := Gist({0, 1}, {}, {0, 1}, 2, map[0 := 2.0], map[0 := 0, 1 := 0], [1, 1, 0])
  const ONE_LEFT := Gist({0, 1}, {0}, {0, 1}, 2, map[1 := 3.0], map[1 := 0], [1, 1, 0, 0])
  const ONE_MORE := Gist({0, 1}, {0}, {0, 1}, 2, map[1 := 3.0], map[1 := 0], [1, 1, 0, 0, 1])
  const TWO_AND_ONE := Gist({0, 1, 2}, {0}, {0, 1}, 3, map[1 := 3.0], map[1 := 0], [1, 1, 0, 0, 1, 1])

  const TWO_IDLE := Gist({0, 1}, {}, {0, 1}, 2, map[0 := 2.0, 1 := 3.0], map[0 := 0, 1 := 0], [1, 1, 0, 0])

  /** No pressure: the queue was empty at this tick, or at the one before, or there was none before. */
  lemma NoPressure(depths: seq<nat>, queued: nat)
    requires queued == 0 || depths == [] || depths[|depths| - 1] == 0
    ensures !Pressed(depths + [queued], PRESSURE_TICKS)
  {
    var all := depths + [queued];
    if queued == 0 {
      assert all[|all| - 1] == 0;
    } else if depths != [] {
      assert all[|all| - 2] == 0;
    }
  }

  lemma FirstSample()
    ensures Sampling(ONE_RUNS, 0.0, 1) == ONE_SEEN
  {
    assert QuietIdle({0}, 0.0, map[], map[]) == map[];
    assert QuietLast({0}, map[], map[]) == map[0 := 0];
  }

  lemma SecondSample()
    ensures Sampling(TWO_RUN, 2.0, 0) == ONE_IDLE
  {
    assert QuietIdle({0, 1}, 2.0, map[], map[0 := 0]) == map[0 := 2.0];
    assert QuietLast({0, 1}, map[], map[0 := 0]) == map[0 := 0, 1 := 0];
  }

  lemma ThirdSample()
    ensures Sampling(ONE_IDLE, 3.0, 0) == TWO_IDLE
  {
    assert QuietIdle({0, 1}, 3.0, map[0 := 2.0], map[0 := 0, 1 := 0]) == map[0 := 2.0, 1 := 3.0];
    assert QuietLast({0, 1}, map[0 := 2.0], map[0 := 0, 1 := 0]) == map[0 := 0, 1 := 0];
  }

  lemma FourthSample()
    ensures Sampling(ONE_LEFT, 4.0, 1) == ONE_MORE
  {
    assert QuietIdle({1}, 4.0, map[1 := 3.0], map[1 := 0]) == map[1 := 3.0];
    assert QuietLast({1}, map[1 := 3.0], map[1 := 0]) == map[1 := 0];
    assert {0, 1} - {0} == {1};
  }

  lemma FirstTick(trace: seq<Moment>)
    requires Run(TIGHT, Overshoot(), trace) && At(trace[1], ONE_RUNS)
    ensures At(trace[2], ONE_SEEN)
  {
    var m, n := trace[1], trace[2];
    assert Next(TIGHT, m, Overshoot()[1], n);
    FirstSample();
    NoPressure([], 1);
    var seen := QuietAt(m, ONE_RUNS, 0.0, 1, n, ONE_SEEN);
    StayAt(seen, ONE_SEEN, 0.0, n);
  }

  lemma ThirdTick(trace: seq<Moment>)
    requires Run(TIGHT, Overshoot(), trace) && At(trace[4], TWO_RUN)
    ensures At(trace[5], ONE_IDLE)
  {
    var m, n := trace[4], trace[5];
    assert Next(TIGHT, m, Overshoot()[4], n);
    SecondSample();
    NoPressure([1, 1], 0);
    var seen := QuietAt(m, TWO_RUN, 2.0, 0, n, ONE_IDLE);
    StayAt(seen, ONE_IDLE, 2.0, n);
  }

  lemma OneTaken()
    ensures map[0 := 2.0, 1 := 3.0] - {0} == map[1 := 3.0]
    ensures map[0 := 0, 1 := 0] - {0} == map[1 := 0]
  {
  }

  lemma FirstLeaves(m: Moment, n: Moment)
    requires At(m, TWO_IDLE) && Decided(TIGHT, m, 3.0, n)
    ensures At(n, ONE_LEFT)
  {
    assert Counted(m) == {0, 1};
    LeaverIs(TIGHT, m, 3.0, n, 0);
    OneTaken();
  }

  lemma FourthTick(trace: seq<Moment>)
    requires Run(TIGHT, Overshoot(), trace) && At(trace[5], ONE_IDLE)
    ensures At(trace[6], ONE_LEFT)
  {
    var m, n := trace[5], trace[6];
    assert Next(TIGHT, m, Overshoot()[5], n);
    ThirdSample();
    NoPressure([1, 1, 0], 0);
    var seen := QuietAt(m, ONE_IDLE, 3.0, 0, n, TWO_IDLE);
    FirstLeaves(seen, n);
  }

  lemma FifthTick(trace: seq<Moment>)
    requires Run(TIGHT, Overshoot(), trace) && At(trace[6], ONE_LEFT)
    ensures At(trace[7], ONE_MORE)
  {
    var m, n := trace[6], trace[7];
    assert Next(TIGHT, m, Overshoot()[6], n);
    FourthSample();
    NoPressure([1, 1, 0, 0], 1);
    var seen := QuietAt(m, ONE_LEFT, 4.0, 1, n, ONE_MORE);
    assert {0, 1} - {0} == {1};
    StayAt(seen, ONE_MORE, 4.0, n);
  }

  lemma SecondTick(trace: seq<Moment>)
    requires Run(TIGHT, Overshoot(), trace) && At(trace[2], ONE_SEEN)
    ensures At(trace[3], TWO)
  {
    var m, n := trace[2], trace[3];
    assert Next(TIGHT, m, Overshoot()[2], n);
    GrowAt(m, ONE_SEEN, 1.0, 1, n);
  }

  lemma SixthTick(trace: seq<Moment>)
    requires Run(TIGHT, Overshoot(), trace) && At(trace[7], ONE_MORE)
    ensures At(trace[8], TWO_AND_ONE)
  {
    var m, n := trace[7], trace[8];
    assert Next(TIGHT, m, Overshoot()[7], n);
    assert {0, 1} - {0} == {1};
    GrowAt(m, ONE_MORE, 5.0, 1, n);
  }

  lemma LastCrash(trace: seq<Moment>)
    requires Run(TIGHT, Overshoot(), trace) && At(trace[8], TWO_AND_ONE)
    ensures |Counted(trace[8])| == 2 && Surplus(trace[8], Overshoot()[8]) && |Counted(trace[9])| == 3
  {
    var m, n := trace[8], trace[9];
    assert Next(TIGHT, m, Overshoot()[8], n);
    assert Counted(m) == {1, 2};
    assert Counted(n) == {0, 1, 2};
  }

  lemma Spawns(trace: seq<Moment>)
    requires Run(TIGHT, Overshoot(), trace)
    ensures At(trace[0], ONE) ==> At(trace[1], ONE_RUNS)
    ensures At(trace[3], TWO) ==> At(trace[4], TWO_RUN)
  {
    assert Next(TIGHT, trace[0], Overshoot()[0], trace[1]);
    assert Next(TIGHT, trace[3], Overshoot()[3], trace[4]);
    if At(trace[0], ONE) {
      SpawnAt(trace[0], ONE, 0, trace[1]);
    }
    if At(trace[3], TWO) {
      SpawnAt(trace[3], TWO, 1, trace[4]);
    }
  }

  /** However the slots fall, this run ends past the ceiling, and it is the crash that takes it there. */
  lemma OvershootsAlways(trace: seq<Moment>)
    requires Run(TIGHT, Overshoot(), trace) && At(trace[0], ONE)
    ensures |Counted(trace[8])| == TIGHT.ceiling && Surplus(trace[8], Overshoot()[8])
    ensures |Counted(trace[9])| == TIGHT.ceiling + 1
  {
    Spawns(trace);
    FirstTick(trace);
    SecondTick(trace);
    Spawns(trace);
    ThirdTick(trace);
    FourthTick(trace);
    FifthTick(trace);
    SixthTick(trace);
    LastCrash(trace);
  }

  method StartTight() returns (e: ElasticRactors)
    ensures fresh(e) && fresh(e.pool) && fresh(e.pool.bank) && fresh(e.scaler)
    ensures e.Valid() && e.PolicyOf() == TIGHT && At(e.Now(), ONE) && e.scaler.at == 0.0
  {
    e := new ElasticRactors(1, 2, 1, 1.0, []);
    OnlyZero(e.Now().live);
  }

  lemma OnlyZero(s: set<nat>)
    requires forall w: nat :: w in s <==> w < 1
    ensures s == {0}
  {
  }

  /** And the pool goes through it: a server's pool of one worker with a ceiling of two ends with three. */
  method Overshoots() returns (e: ElasticRactors, ghost trace: seq<Moment>)
    ensures fresh(e) && e.Valid() && e.PolicyOf() == TIGHT
    ensures Run(e.PolicyOf(), Overshoot(), trace) && At(trace[0], ONE) && trace[9] == e.Now()
    ensures |Counted(trace[8])| == 2 && Surplus(trace[8], Overshoot()[8]) && |e.pool.Active()| == 3
  {
    e := StartTight();
    trace := e.Drive(Overshoot());
    OvershootsAlways(trace);
  }
}
