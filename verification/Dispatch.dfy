/** Lane dispatch as the intake runs it: three scans over the slot table, and what they promise
    when no other thread moves in between. */
module Dispatch {
  import opened Options
  import opened Lanes
  import opened Scan

  datatype Outcome = Sent | Full(request: Request) | Draining

  predicate AwakeAccepts(slot: Slot) {
    !slot.parked && Accepts(slot)
  }

  /** Scan position `k` is the first whose slot satisfies `AwakeAccepts` (or `Accepts`). */
  predicate FirstAwake(slots: seq<Slot>, start: nat, k: nat) {
    && k < |slots| && AwakeAccepts(slots[Probe(start, k, |slots|)])
    && forall j :: 0 <= j < k ==> !AwakeAccepts(slots[Probe(start, j, |slots|)])
  }

  predicate FirstAccepting(slots: seq<Slot>, start: nat, k: nat) {
    && k < |slots| && Accepts(slots[Probe(start, k, |slots|)])
    && forall j :: 0 <= j < k ==> !Accepts(slots[Probe(start, j, |slots|)])
  }

  predicate NoneAwake(slots: seq<Slot>, start: nat) {
    forall k :: 0 <= k < |slots| ==> !AwakeAccepts(slots[Probe(start, k, |slots|)])
  }

  predicate NoneAccepting(slots: seq<Slot>, start: nat) {
    forall k :: 0 <= k < |slots| ==> !Accepts(slots[Probe(start, k, |slots|)])
  }

  predicate Idle(slot: Slot) {
    slot.parked && slot.lane == []
  }

  /** Among the idle slots the one that parked last, the later index on a tie. */
  function Hottest(slots: seq<Slot>): (h: Option<nat>)
    ensures h.None? <==> forall i :: 0 <= i < |slots| ==> !Idle(slots[i])
    ensures h.Some? ==>
      && h.value < |slots| && Idle(slots[h.value])
      && forall i :: 0 <= i < |slots| && Idle(slots[i]) ==>
           slots[i].parkedAt < slots[h.value].parkedAt ||
           (slots[i].parkedAt == slots[h.value].parkedAt && i <= h.value)
  {
    if slots == [] then None
    else
      var last := |slots| - 1;
      var rest := Hottest(slots[..last]);
      if !Idle(slots[last]) then rest
      else if rest.Some? && slots[rest.value].parkedAt > slots[last].parkedAt then rest
      else Some(last)
  }

  /** Slot `i` is where the preference order sends a request: the first awake accepting slot of the
      scan, else the hottest idle slot if it accepts, else the first accepting slot of the scan. */
  ghost predicate Chosen(slots: seq<Slot>, start: nat, i: nat) {
    && i < |slots|
    && if !NoneAwake(slots, start) then exists k :: FirstAwake(slots, start, k) && i == Probe(start, k, |slots|)
       else if Hottest(slots).Some? && Accepts(slots[Hottest(slots).value]) then i == Hottest(slots).value
       else exists k :: FirstAccepting(slots, start, k) && i == Probe(start, k, |slots|)
  }

  /** Some slot the dispatch looks at (by its scans, or as the hottest) still has its lane open. */
  ghost predicate SeesOpen(slots: seq<Slot>, start: nat) {
    || (exists k :: 0 <= k < |slots| && slots[Probe(start, k, |slots|)].open)
    || (Hottest(slots).Some? && slots[Hottest(slots).value].open)
  }

  function Pushed(slots: seq<Slot>, i: nat, r: Request): seq<Slot>
    requires i < |slots|
  {
    slots[i := slots[i].(lane := slots[i].lane + [r])]
  }

  predicate HottestRefuses(slots: seq<Slot>) {
    Hottest(slots).Some? ==> !Accepts(slots[Hottest(slots).value])
  }

  /** What one dispatch of `r` from cursor value `start` may do to the table when run alone. */
  ghost predicate Dispatched(slots: seq<Slot>, start: nat, r: Request, d: Outcome, next: seq<Slot>) {
    match d
    case Sent => exists i: nat :: Chosen(slots, start, i) && Accepts(slots[i]) && next == Pushed(slots, i, r)
    case Full(back) =>
      && back == r && next == slots && NoneAccepting(slots, start) && HottestRefuses(slots)
      && (slots == [] || SeesOpen(slots, start))
    case Draining => next == slots && slots != [] && !SeesOpen(slots, start)
  }

  /** The first sibling of `i` with something to steal. */
  predicate FirstLoaded(slots: seq<Slot>, i: nat, j: nat) {
    && j < |slots| && j != i && slots[j].lane != []
    && forall k :: 0 <= k < j && k != i ==> slots[k].lane == []
  }

  class Server {
    var slots: seq<Slot>
    var cursor: nat

    /** `try_lane`: the critical section under slot `i`'s lane lock. */
    method TryLane(i: nat, r: Request) returns (sent: bool, open: bool)
      requires i < |slots|
      modifies this`slots
      ensures sent == Accepts(old(slots)[i]) && open == old(slots)[i].open
      ensures slots == if sent then Pushed(old(slots), i, r) else old(slots)
    {
      if !slots[i].open {
        return false, false;
      }
      if slots[i].retired {
        return false, true;
      }
      if |slots[i].lane| >= LANE_DEPTH {
        return false, true;
      }
      slots := slots[i := slots[i].(lane := slots[i].lane + [r])];
      return true, true;
    }

    /** `try_dispatch`: awake slots in cyclic order, the hottest idle slot, any slot in cyclic order. */
    method TryDispatch(r: Request) returns (d: Outcome)
      modifies this
      ensures Dispatched(old(slots), old(cursor), r, d, slots)
      ensures cursor == if old(slots) == [] then old(cursor) else (old(cursor) + 1) % WORD
    {
      var n := |slots|;
      if n == 0 {
        return Full(r);
      }
      var start := cursor;
      cursor := (cursor + 1) % WORD;
      var anyOpen := false;
      ghost var before := slots;

      for k := 0 to n
        invariant slots == before && cursor == (start + 1) % WORD
        invariant forall j :: 0 <= j < k ==> !AwakeAccepts(slots[Probe(start, j, n)])
        invariant anyOpen ==> SeesOpen(slots, start)
      {
        var i := Probe(start, k, n);
        if !slots[i].parked {
          var sent, open := TryLane(i, r);
          if sent {
            assert FirstAwake(before, start, k);
            return Sent;
          }
          anyOpen := anyOpen || open;
        }
      }
      assert NoneAwake(slots, start);

      var hottest := Hottest(slots);
      if hottest.Some? {
        var sent, open := TryLane(hottest.value, r);
        if sent {
          return Sent;
        }
        anyOpen := anyOpen || open;
      }

      for k := 0 to n
        invariant slots == before && cursor == (start + 1) % WORD
        invariant forall j :: 0 <= j < k ==> !Accepts(slots[Probe(start, j, n)])
        invariant forall j :: 0 <= j < k && slots[Probe(start, j, n)].open ==> anyOpen
        invariant hottest.Some? && slots[hottest.value].open ==> anyOpen
        invariant anyOpen ==> SeesOpen(slots, start)
      {
        var sent, open := TryLane(Probe(start, k, n), r);
        if sent {
          assert FirstAccepting(before, start, k);
          return Sent;
        }
        anyOpen := anyOpen || open;
      }
      if anyOpen {
        return Full(r);
      } else {
        return Draining;
      }
    }

    /** `steal`: one sweep over the siblings, in table order. */
    method Steal(i: nat) returns (taken: Option<Request>)
      requires i < |slots|
      modifies this`slots
      ensures taken.None? ==> slots == old(slots) && forall k :: 0 <= k < |slots| && k != i ==> slots[k].lane == []
      ensures taken.Some? ==>
        exists j: nat :: (
          && FirstLoaded(old(slots), i, j) && taken.value == old(slots)[j].lane[0]
          && slots == old(slots)[j := old(slots)[j].(lane := old(slots)[j].lane[1..])])
    {
      for j := 0 to |slots|
        invariant slots == old(slots)
        invariant forall k :: 0 <= k < j && k != i ==> slots[k].lane == []
      {
        if j != i && slots[j].lane != [] {
          assert FirstLoaded(slots, i, j);
          taken := Some(slots[j].lane[0]);
          slots := slots[j := slots[j].(lane := slots[j].lane[1..])];
          return;
        }
      }
      return None;
    }

    /** `abort_slot`'s lane half: close the lane, mark it parked, throw away what is queued. */
    method DrainLane(i: nat) returns (dropped: seq<Request>)
      requires i < |slots|
      modifies this`slots
      ensures dropped == old(slots)[i].lane
      ensures slots == old(slots)[i := old(slots)[i].(open := false, parked := true, lane := [])]
    {
      slots := slots[i := slots[i].(open := false)];
      slots := slots[i := slots[i].(parked := true)];
      dropped := [];
      while slots[i].lane != []
        invariant |slots| == |old(slots)| && dropped + slots[i].lane == old(slots)[i].lane
        invariant slots == old(slots)[i := old(slots)[i].(open := false, parked := true, lane := slots[i].lane)]
        decreases |slots[i].lane|
      {
        dropped := dropped + [slots[i].lane[0]];
        slots := slots[i := slots[i].(lane := slots[i].lane[1..])];
      }
    }

    /** `close_queue`: take every registered lane's sender. */
    method CloseQueue()
      modifies this`slots
      ensures |slots| == |old(slots)|
      ensures forall i :: 0 <= i < |slots| ==> slots[i] == old(slots)[i].(open := false)
    {
      for i := 0 to |slots|
        invariant |slots| == |old(slots)|
        invariant forall k :: 0 <= k < |slots| ==>
                  slots[k] == if k < i then old(slots)[k].(open := false) else old(slots)[k]
      {
        slots := slots[i := slots[i].(open := false)];
      }
    }
  }

  /** With full coverage the scans' verdict is about the whole table: something was sent unless no
      lane accepts, and draining means every lane is closed. */
  lemma WholeTable(slots: seq<Slot>, start: nat)
    requires slots != [] && Covers(start, |slots|)
    ensures NoneAccepting(slots, start) <==> forall i :: 0 <= i < |slots| ==> !Accepts(slots[i])
    ensures SeesOpen(slots, start) <==> exists i :: 0 <= i < |slots| && slots[i].open
  {
    if NoneAccepting(slots, start) {
      forall i: nat | i < |slots| ensures !Accepts(slots[i]) {
        assert Reaches(start, |slots|, i);
      }
    }
    if i :| 0 <= i < |slots| && slots[i].open {
      assert Reaches(start, |slots|, i);
    }
  }

  /** And without it some table has an awake free lane that no scan offers the request to. */
  lemma FreeLaneMissed(start: nat, n: nat) returns (slots: seq<Slot>)
    requires 0 < n <= WORD && start < WORD && !Covers(start, n)
    ensures |slots| == n && NoneAccepting(slots, start) && Hottest(slots) == None
    ensures exists i :: 0 <= i < n && AwakeAccepts(slots[i])
  {
    var missed: nat :| missed < n && !Reaches(start, n, missed);
    slots := seq(n, j => if j == missed then FreshSlot() else FreshSlot().(open := false));
    assert slots[missed] == FreshSlot();
    assert AwakeAccepts(slots[missed]);
    forall k | 0 <= k < n ensures !Accepts(slots[Probe(start, k, n)]) {
      assert Probe(start, k, n) != missed;
    }
  }

  // ----- a burst into fresh lanes

  /** In cycle order, the first `t` lanes hold `q + 1` requests and the rest `q`. */
  ghost predicate Level(slots: seq<Slot>, order: seq<nat>, q: nat, t: nat) {
    && |order| == |slots| && t < |slots| && (forall j :: 0 <= j < |slots| ==> order[j] < |slots|)
    && (forall j :: 0 <= j < |slots| ==> Ready(slots[order[j]]))
    && (forall j :: 0 <= j < t ==> |slots[order[j]].lane| == q + 1)
    && (forall j :: t <= j < |slots| ==> |slots[order[j]].lane| == q)
  }

  predicate Ready(slot: Slot) {
    slot.open && !slot.retired && !slot.parked
  }

  /** At level (q, t) the dispatch goes to lane `t` of the cycle. */
  lemma LevelTarget(slots: seq<Slot>, start: nat, target: nat, r: Request, d: Outcome, next: seq<Slot>)
    requires target < |slots| && AwakeAccepts(slots[target]) && Probe(start, 0, |slots|) == target
    requires Dispatched(slots, start, r, d, next)
    ensures d == Sent && next == Pushed(slots, target, r)
  {
    assert FirstAwake(slots, start, 0);
    assert slots[Probe(start, 0, |slots|)].open;
    assert d == Sent;
    var i: nat :| Chosen(slots, start, i) && Accepts(slots[i]) && next == Pushed(slots, i, r);
    assert !NoneAwake(slots, start);
    var k: nat :| FirstAwake(slots, start, k) && i == Probe(start, k, |slots|);
    assert k == 0;
  }

  ghost predicate AllFull(slots: seq<Slot>) {
    forall i :: 0 <= i < |slots| ==> slots[i].open && !Accepts(slots[i])
  }

  /** With every lane full the request comes back and nothing changes. */
  lemma FullBack(slots: seq<Slot>, start: nat, r: Request, d: Outcome, next: seq<Slot>)
    requires slots != [] && AllFull(slots) && Dispatched(slots, start, r, d, next)
    ensures d == Full(r) && next == slots
  {
    assert slots[Probe(start, 0, |slots|)].open;
  }

  /** A level is room in its lane `t`, or none anywhere. */
  lemma LevelRoom(slots: seq<Slot>, order: seq<nat>, q: nat, t: nat)
    requires Level(slots, order, q, t) && (forall i :: 0 <= i < |slots| ==> i in order)
    requires q >= LANE_DEPTH ==> q == LANE_DEPTH && t == 0
    ensures order[t] < |slots| && if q < LANE_DEPTH then AwakeAccepts(slots[order[t]]) else AllFull(slots)
  {
    assert Ready(slots[order[t]]);
    if q >= LANE_DEPTH {
      forall i | 0 <= i < |slots| ensures slots[i].open && !Accepts(slots[i]) {
        assert i in order;
      }
    }
  }

  /** Requests `rs` dispatched one after another, alone, into a table of fresh lanes. */
  ghost predicate Burst(states: seq<seq<Slot>>, c: nat, rs: seq<Request>, ds: seq<Outcome>) {
    && |states| == |rs| + 1 && |ds| == |rs| && states[0] != [] && c < WORD
    && (forall slot :: slot in states[0] ==> slot == FreshSlot())
    && forall k :: 0 <= k < |rs| ==> BurstStep(states, c, rs, ds, k)
  }

  ghost predicate BurstStep(states: seq<seq<Slot>>, c: nat, rs: seq<Request>, ds: seq<Outcome>, k: nat)
    requires |states| == |rs| + 1 && |ds| == |rs| && k < |rs|
  {
    Dispatched(states[k], (c + k) % WORD, rs[k], ds[k], states[k + 1])
  }

  /** `m` requests over `n` lanes make level (q, t); past the capacity the lanes stay full. */
  predicate Tally(n: nat, m: nat, q: nat, t: nat) {
    if m < n * LANE_DEPTH then m == q * n + t && q < LANE_DEPTH else q == LANE_DEPTH && t == 0
  }

  /** The cursor has not wrapped after `m` dispatches, or a wrap does not show. */
  predicate NoSlip(c: nat, n: nat, m: nat)
    requires n > 0
  {
    c + m < WORD || WORD % n == 0
  }

  /** The order in which the cursor, one further for each request, leads over the lanes. */
  ghost predicate Steers(order: seq<nat>, c: nat, n: nat)
    requires n > 0
  {
    && |order| == n && Distinct(order) && (forall i :: 0 <= i < n ==> i in order)
    && (forall j :: 0 <= j < n ==> order[j] < n)
    && forall m: nat, q: nat, t: nat :: Tally(n, m, q, t) && t < n && m < n * LANE_DEPTH && NoSlip(c, n, m) ==>
         Probe((c + m) % WORD, 0, n) == order[t]
  }

  lemma CycleSteers(c: nat, n: nat)
    requires n > 0
    ensures Steers(Cycle(c, n), c, n)
  {
    CycleIsPermutation(c, n);
    forall m: nat, q: nat, t: nat | Tally(n, m, q, t) && t < n && m < n * LANE_DEPTH && NoSlip(c, n, m)
      ensures Probe((c + m) % WORD, 0, n) == Cycle(c, n)[t]
    {
      StartsAt(c, n, m, q, t);
    }
  }

  lemma Steered(order: seq<nat>, c: nat, n: nat, m: nat, q: nat, t: nat)
    requires t < n && Steers(order, c, n) && Tally(n, m, q, t) && NoSlip(c, n, m)
    ensures q < LANE_DEPTH ==> Probe((c + m) % WORD, 0, n) == order[t]
    ensures q >= LANE_DEPTH ==> q == LANE_DEPTH && t == 0
  {
  }

  lemma BurstRuled(states: seq<seq<Slot>>, c: nat, rs: seq<Request>, ds: seq<Outcome>, k: nat, room: bool, target: nat)
    requires Burst(states, c, rs, ds) && k < |rs| && target < |states[k]|
    requires if room then AwakeAccepts(states[k][target]) && Probe((c + k) % WORD, 0, |states[k]|) == target
             else AllFull(states[k])
    ensures Ruled(states[k], room, target, rs[k], ds[k], states[k + 1])
  {
    assert BurstStep(states, c, rs, ds, k);
    if room {
      LevelTarget(states[k], (c + k) % WORD, target, rs[k], ds[k], states[k + 1]);
    } else {
      FullBack(states[k], (c + k) % WORD, rs[k], ds[k], states[k + 1]);
    }
  }

  /** The level after `m` dispatches. */
  lemma {:induction false} BurstLevel(states: seq<seq<Slot>>, c: nat, rs: seq<Request>, ds: seq<Outcome>,
                                      order: seq<nat>, m: nat)
    returns (q: nat, t: nat)
    requires Burst(states, c, rs, ds) && m <= |rs| && Steers(order, c, |states[0]|)
    requires forall k :: 0 <= k < m ==> NoSlip(c, |states[0]|, k)
    ensures |states[m]| == |states[0]| && Level(states[m], order, q, t)
    ensures Tally(|states[0]|, m, q, t)
    ensures m > 0 ==> ds[m - 1] == if m - 1 < |states[0]| * LANE_DEPTH then Sent else Full(rs[m - 1])
  {
    if m == 0 {
      q, t := 0, 0;
      FreshLevel(states[0], order);
    } else {
      var k := m - 1;
      var q0, t0 := BurstLevel(states, c, rs, ds, order, k);
      Steered(order, c, |states[0]|, k, q0, t0);
      LevelRoom(states[k], order, q0, t0);
      BurstRuled(states, c, rs, ds, k, q0 < LANE_DEPTH, order[t0]);
      q, t := LevelAdvance(states[k], order, k, q0, t0, rs[k], ds[k], states[k + 1]);
    }
  }

  lemma FreshLevel(slots: seq<Slot>, order: seq<nat>)
    requires slots != [] && |order| == |slots| && (forall j :: 0 <= j < |slots| ==> order[j] < |slots|)
    requires forall slot :: slot in slots ==> slot == FreshSlot()
    ensures Level(slots, order, 0, 0)
  {
    forall j | 0 <= j < |slots| ensures slots[order[j]] == FreshSlot() {
      assert slots[order[j]] in slots;
    }
  }

  /** With room the request goes to the target lane; without, it comes back. */
  ghost predicate Ruled(slots: seq<Slot>, room: bool, target: nat, r: Request, d: Outcome, next: seq<Slot>)
    requires target < |slots|
  {
    if room then d == Sent && next == Pushed(slots, target, r) else d == Full(r) && next == slots
  }

  lemma LevelAdvance(slots: seq<Slot>, order: seq<nat>, m: nat, q: nat, t: nat, r: Request, d: Outcome, next: seq<Slot>)
    returns (q': nat, t': nat)
    requires Level(slots, order, q, t) && Distinct(order) && Tally(|slots|, m, q, t)
    requires Ruled(slots, q < LANE_DEPTH, order[t], r, d, next)
    ensures |next| == |slots| && Level(next, order, q', t') && Tally(|slots|, m + 1, q', t')
    ensures d == if m < |slots| * LANE_DEPTH then Sent else Full(r)
  {
    if m < |slots| * LANE_DEPTH {
      forall j | 0 <= j < |slots| && j != t ensures next[order[j]] == slots[order[j]] {
      }
      NextTally(|slots|, m, q, t);
      q', t' := if t + 1 < |slots| then q else q + 1, if t + 1 < |slots| then t + 1 else 0;
    } else {
      q', t' := q, t;
    }
  }

  lemma NextTally(n: nat, m: nat, q: nat, t: nat)
    requires t < n && m < n * LANE_DEPTH && Tally(n, m, q, t)
    ensures if t + 1 < n then Tally(n, m + 1, q, t + 1) else Tally(n, m + 1, q + 1, 0)
  {
    assert (q + 1) * n == q * n + n;
    if q + 1 < LANE_DEPTH {
      assert (q + 1) * n < LANE_DEPTH * n;
    }
  }

  /** Of a burst into `n` fresh awake lanes that the cursor's wrap does not disturb, exactly the first
      `n * LANE_DEPTH` requests are sent, and at no point are two lanes' depths more than one apart. */
  lemma BurstBalanced(states: seq<seq<Slot>>, c: nat, rs: seq<Request>, ds: seq<Outcome>, m: nat, i: nat, j: nat)
    requires Burst(states, c, rs, ds) && m <= |rs| && i < |states[0]| && j < |states[0]|
    requires c + |rs| <= WORD || WORD % |states[0]| == 0
    ensures |states[m]| == |states[0]|
    ensures |states[m][i].lane| <= |states[m][j].lane| + 1
    ensures m < |rs| ==> ds[m] == if m < |states[0]| * LANE_DEPTH then Sent else Full(rs[m])
  {
    var order := Cycle(c, |states[0]|);
    CycleSteers(c, |states[0]|);
    var q, t := BurstLevel(states, c, rs, ds, order, m);
    assert i in order && j in order;
    if m < |rs| {
      var q', t' := BurstLevel(states, c, rs, ds, order, m + 1);
    }
  }

  /** No burst into `n` fresh lanes, from any cursor value, ever has two lanes more than one apart. */
  ghost predicate AlwaysBalanced(n: nat) {
    forall states: seq<seq<Slot>>, c: nat, rs: seq<Request>, ds: seq<Outcome> ::
      Burst(states, c, rs, ds) && |states[0]| == n ==> Balanced(states, n)
  }

  ghost predicate Balanced(states: seq<seq<Slot>>, n: nat) {
    forall m :: 0 <= m < |states| ==> Even(states[m], n)
  }

  /** No two of `n` lanes are more than one apart. */
  ghost predicate Even(slots: seq<Slot>, n: nat) {
    |slots| == n && forall i, j :: 0 <= i < n && 0 <= j < n ==> |slots[i].lane| <= |slots[j].lane| + 1
  }

  /** With `w` the word size modulo `n`, a burst that starts `w` before the wrap fills lanes 0 to w - 1 ... */
  lemma {:induction false} UpToTheWrap(states: seq<seq<Slot>>, c: nat, rs: seq<Request>, ds: seq<Outcome>, n: nat,
                                       k: nat)
    requires Burst(states, c, rs, ds) && |states[0]| == n && k <= WORD % n && k <= |rs| && c == WORD - WORD % n
    ensures |states[k]| == n && Level(states[k], Cycle(0, n), 0, k)
  {
    if k == 0 {
      FreshLevel(states[0], Cycle(0, n));
    } else {
      UpToTheWrap(states, c, rs, ds, n, k - 1);
      CountsUp(n, k - 1);
      NextLane(states, c, rs, ds, n, k - 1);
    }
  }

  lemma NextLane(states: seq<seq<Slot>>, c: nat, rs: seq<Request>, ds: seq<Outcome>, n: nat, k: nat)
    requires Burst(states, c, rs, ds) && k < |rs| && k + 1 < n && |states[k]| == n
    requires Level(states[k], Cycle(0, n), 0, k) && Probe((c + k) % WORD, 0, n) == k
    ensures |states[k + 1]| == n && Level(states[k + 1], Cycle(0, n), 0, k + 1)
  {
    IdentityCycle(n);
    assert Ready(states[k][Cycle(0, n)[k]]);
    BurstRuled(states, c, rs, ds, k, true, k);
  }

  lemma IdentityCycle(n: nat)
    requires n > 0
    ensures forall j :: 0 <= j < n ==> Cycle(0, n)[j] == j
  {
    forall j | 0 <= j < n ensures j % n == j {
      ModIs(j, 0, n, j);
    }
  }

  /** ... and then, at cursor value 0, goes to lane 0 again while lane `w` is empty. */
  lemma WrapUnbalances(states: seq<seq<Slot>>, rs: seq<Request>, ds: seq<Outcome>, n: nat)
    requires n > 0 && WORD % n != 0 && Burst(states, WORD - WORD % n, rs, ds)
    requires |states[0]| == n && |rs| == WORD % n + 1
    ensures var w := WORD % n; |states[w + 1]| == n && |states[w + 1][0].lane| == 2 && states[w + 1][w].lane == []
  {
    var w, c := WORD % n, WORD - WORD % n;
    UpToTheWrap(states, c, rs, ds, n, w);
    IdentityCycle(n);
    assert |states[w][Cycle(0, n)[0]].lane| == 1 && |states[w][Cycle(0, n)[w]].lane| == 0;
    assert Ready(states[w][Cycle(0, n)[0]]);
    ModIs(0, 0, n, 0);
    BurstRuled(states, c, rs, ds, w, true, 0);
  }

  /** A dispatch can go to the slot its scan meets first, if that is awake and accepts. */
  lemma FirstProbed(slots: seq<Slot>, start: nat, target: nat, r: Request)
    requires target < |slots| && AwakeAccepts(slots[target]) && Probe(start, 0, |slots|) == target
    ensures Dispatched(slots, start, r, Sent, Pushed(slots, target, r))
  {
    assert FirstAwake(slots, start, 0);
    assert Chosen(slots, start, target);
  }

  lemma StepIs(states: seq<seq<Slot>>, c: nat, rs: seq<Request>, ds: seq<Outcome>, k: nat,
               slots: seq<Slot>, r: Request, d: Outcome, next: seq<Slot>)
    requires |states| == |rs| + 1 && |ds| == |rs| && k < |rs|
    requires states[k] == slots && rs[k] == r && ds[k] == d && states[k + 1] == next
    requires Dispatched(slots, (c + k) % WORD, r, d, next)
    ensures BurstStep(states, c, rs, ds, k)
  {
  }

  lemma SameStep(states: seq<seq<Slot>>, c: nat, rs: seq<Request>, ds: seq<Outcome>,
                 states': seq<seq<Slot>>, rs': seq<Request>, ds': seq<Outcome>, k: nat)
    requires Burst(states, c, rs, ds) && k < |rs| && |states'| == |rs'| + 1 && |ds'| == |rs'| && |rs| < |rs'|
    requires states' == states + states'[|states|..] && rs' == rs + rs'[|rs|..] && ds' == ds + ds'[|ds|..]
    ensures BurstStep(states', c, rs', ds', k)
  {
    assert BurstStep(states, c, rs, ds, k);
    StepIs(states', c, rs', ds', k, states[k], rs[k], ds[k], states[k + 1]);
  }

  lemma BurstOn(states: seq<seq<Slot>>, c: nat, rs: seq<Request>, ds: seq<Outcome>, r: Request, d: Outcome,
                next: seq<Slot>)
    requires Burst(states, c, rs, ds) && BurstStep(states + [next], c, rs + [r], ds + [d], |rs|)
    ensures Burst(states + [next], c, rs + [r], ds + [d])
  {
    forall k | 0 <= k < |rs| ensures BurstStep(states + [next], c, rs + [r], ds + [d], k) {
      SameStep(states, c, rs, ds, states + [next], rs + [r], ds + [d], k);
    }
  }

  lemma PushStep(states: seq<seq<Slot>>, c: nat, rs: seq<Request>, ds: seq<Outcome>, k: nat, slots: seq<Slot>,
                 target: nat)
    requires |states| == |rs| + 1 && |ds| == |rs| && k < |rs| && target < |slots| && AwakeAccepts(slots[target])
    requires states[k] == slots && ds[k] == Sent && states[k + 1] == Pushed(slots, target, rs[k])
    requires Probe((c + k) % WORD, 0, |slots|) == target
    ensures BurstStep(states, c, rs, ds, k)
  {
    FirstProbed(slots, (c + k) % WORD, target, rs[k]);
  }

  lemma BurstPush(states: seq<seq<Slot>>, c: nat, rs: seq<Request>, ds: seq<Outcome>, target: nat)
    returns (states': seq<seq<Slot>>, rs': seq<Request>, ds': seq<Outcome>)
    requires Burst(states, c, rs, ds) && target < |states[|rs|]| && AwakeAccepts(states[|rs|][target])
    requires Probe((c + |rs|) % WORD, 0, |states[|rs|]|) == target
    ensures Burst(states', c, rs', ds') && states'[0] == states[0] && |rs'| == |rs| + 1
  {
    var slots := states[|rs|];
    states', rs', ds' := states + [Pushed(slots, target, 0)], rs + [0], ds + [Sent];
    PushStep(states', c, rs', ds', |rs|, slots, target);
    BurstOn(states, c, rs, ds, 0, Sent, Pushed(slots, target, 0));
  }

  /** There is such a burst. */
  lemma {:induction false} WrapBurst(n: nat, k: nat) returns (states: seq<seq<Slot>>, rs: seq<Request>,
                                     ds: seq<Outcome>)
    requires n > 0 && WORD % n != 0 && k <= WORD % n + 1
    ensures Burst(states, WORD - WORD % n, rs, ds) && |states[0]| == n && |rs| == k
  {
    var c := WORD - WORD % n;
    if k == 0 {
      states, rs, ds := [seq(n, _ => FreshSlot())], [], [];
    } else {
      states, rs, ds := WrapBurst(n, k - 1);
      var slots := states[k - 1];
      UpToTheWrap(states, c, rs, ds, n, k - 1);
      var target := WrapTarget(slots, n, c, k - 1);
      states, rs, ds := BurstPush(states, c, rs, ds, target);
    }
  }

  lemma WrapTarget(slots: seq<Slot>, n: nat, c: nat, k: nat) returns (target: nat)
    requires n > 0 && c == WORD - WORD % n && k <= WORD % n && |slots| == n && Level(slots, Cycle(0, n), 0, k)
    requires WORD % n != 0
    ensures target < n && AwakeAccepts(slots[target]) && Probe((c + k) % WORD, 0, n) == target
  {
    IdentityCycle(n);
    target := if k < WORD % n then k else 0;
    assert Ready(slots[Cycle(0, n)[target]]);
    WrapProbe(n, c, k);
  }

  lemma WrapProbe(n: nat, c: nat, k: nat)
    requires n > 0 && c == WORD - WORD % n && k <= WORD % n
    ensures Probe((c + k) % WORD, 0, n) == if k < WORD % n then k else 0
  {
    if k < WORD % n {
      CountsUp(n, k);
    } else {
      BeginsAgain(n);
    }
  }

  lemma BurstEven(states: seq<seq<Slot>>, c: nat, rs: seq<Request>, ds: seq<Outcome>, m: nat)
    requires Burst(states, c, rs, ds) && m <= |rs| && WORD % |states[0]| == 0
    ensures Even(states[m], |states[0]|)
  {
    BurstBalanced(states, c, rs, ds, m, 0, 0);
    forall i, j | 0 <= i < |states[0]| && 0 <= j < |states[0]| ensures |states[m][i].lane| <= |states[m][j].lane| + 1 {
      BurstBalanced(states, c, rs, ds, m, i, j);
    }
  }

  /** Bursts into `n` fresh lanes stay balanced from every cursor value exactly if `n` divides the word size. */
  lemma BalancedExactly(n: nat)
    requires n > 0
    ensures AlwaysBalanced(n) <==> WORD % n == 0
  {
    if WORD % n == 0 {
      forall states: seq<seq<Slot>>, c: nat, rs: seq<Request>, ds: seq<Outcome> |
        Burst(states, c, rs, ds) && |states[0]| == n
        ensures Balanced(states, n)
      {
        forall m | 0 <= m < |states| ensures Even(states[m], n) {
          BurstEven(states, c, rs, ds, m);
        }
      }
    } else {
      var w := WORD % n;
      var states, rs, ds := WrapBurst(n, w + 1);
      WrapUnbalances(states, rs, ds, n);
      assert !(|states[w + 1][0].lane| <= |states[w + 1][w].lane| + 1);
      assert !Even(states[w + 1], n);
    }
  }

  // ----- whom a dispatch wakes

  /** Nobody is woken while an awake worker has room: with full coverage the request goes to a slot that is not
      parked, if there is one that would take it. */
  lemma AwakePreferred(slots: seq<Slot>, start: nat, r: Request, d: Outcome, next: seq<Slot>, i: nat)
    requires slots != [] && Covers(start, |slots|) && Dispatched(slots, start, r, d, next)
    requires i < |slots| && !slots[i].parked && slots[i].open && !slots[i].retired && |slots[i].lane| < LANE_DEPTH
    ensures d == Sent
    ensures exists j: nat ::
              j < |slots| && !slots[j].parked && next == slots[j := slots[j].(lane := slots[j].lane + [r])]
  {
    assert Reaches(start, |slots|, i);
    var k: nat :| k < |slots| && Probe(start, k, |slots|) == i;
    assert AwakeAccepts(slots[Probe(start, k, |slots|)]);
    assert !NoneAwake(slots, start) && !NoneAccepting(slots, start);
    assert slots[Probe(start, k, |slots|)].open;
    assert d == Sent;
    var j: nat :| Chosen(slots, start, j) && Accepts(slots[j]) && next == Pushed(slots, j, r);
  }

  /** All workers wait, with their lanes open. */
  ghost predicate AllParked(slots: seq<Slot>) {
    forall i :: 0 <= i < |slots| ==> slots[i].parked && slots[i].open && !slots[i].retired
  }

  /** With everybody parked and some lane empty the request goes to an empty lane, that of the worker that parked
      last of those. */
  lemma WakesTheLatest(slots: seq<Slot>, start: nat, r: Request, d: Outcome, next: seq<Slot>, e: nat) returns (i: nat)
    requires AllParked(slots) && e < |slots| && slots[e].lane == [] && Dispatched(slots, start, r, d, next)
    ensures d == Sent && i < |slots| && slots[i].lane == [] && next == slots[i := slots[i].(lane := [r])]
    ensures forall j :: 0 <= j < |slots| && slots[j].lane == [] ==> slots[j].parkedAt <= slots[i].parkedAt
  {
    forall k | 0 <= k < |slots| ensures !AwakeAccepts(slots[Probe(start, k, |slots|)]) {
    }
    assert Idle(slots[e]);
    var h := Hottest(slots);
    assert Accepts(slots[h.value]);
    assert slots[h.value].open;
    HottestTakesIt(slots, start, r, d, next);
    i := h.value;
    assert slots[i].lane + [r] == [r];
    forall j | 0 <= j < |slots| && slots[j].lane == [] ensures slots[j].parkedAt <= slots[i].parkedAt {
      assert Idle(slots[j]);
    }
  }

  lemma HottestTakesIt(slots: seq<Slot>, start: nat, r: Request, d: Outcome, next: seq<Slot>)
    requires NoneAwake(slots, start) && Hottest(slots).Some? && Accepts(slots[Hottest(slots).value])
    requires AllParked(slots) && Dispatched(slots, start, r, d, next)
    ensures d == Sent && next == Pushed(slots, Hottest(slots).value, r)
  {
    assert SeesOpen(slots, start);
  }

  // ----- abort_slot as protocol actions

  /** The actions of an `abort_slot` call, by caller `a`, that nothing interrupts. */
  function AbortScript(a: nat, queued: nat): seq<Action> {
    if queued == 0 then [Abort(a, SeeEmpty)] else [Abort(a, DropHead)] + AbortScript(a, queued - 1)
  }

  /** What that leaves: the lane of slot `i` empty, its requests claimed and counted as drained. */
  ghost predicate Emptied(s: State, a: nat, i: nat, t: State)
    requires i < |s.slots| && a in s.aborters
  {
    && t.slots == s.slots[i := s.slots[i].(lane := [])]
    && t.aborters == s.aborters[a := s.aborters[a].(pc := Finished)]
    && t.claimed == s.claimed + (set r | r in s.slots[i].lane)
    && t.drained == s.drained + |s.slots[i].lane|
  }

  lemma EmptiedOneMore(s: State, a: nat, t: State)
    requires CanAbort(s, a, DropHead) && s.aborters[a].slot < |s.slots|
    requires Emptied(ApplyAbort(s, a, DropHead), a, s.aborters[a].slot, t)
    ensures Emptied(s, a, s.aborters[a].slot, t)
  {
    var i := s.aborters[a].slot;
    var lane, next := s.slots[i].lane, ApplyAbort(s, a, DropHead);
    assert next.slots[i := next.slots[i].(lane := [])] == s.slots[i := s.slots[i].(lane := [])];
    assert lane == [lane[0]] + lane[1..];
  }

  /** Run to its end, the drain empties the lane and claims every request that was in it. */
  lemma {:induction false} DrainAlone(s: State, a: nat)
    requires a in s.aborters && s.aborters[a].slot < |s.slots| && s.aborters[a].pc == Drain
    ensures var i := s.aborters[a].slot;
      && Legal(s, AbortScript(a, |s.slots[i].lane|))
      && Emptied(s, a, i, Exec(s, AbortScript(a, |s.slots[i].lane|)))
    decreases |s.slots[s.aborters[a].slot].lane|
  {
    var i := s.aborters[a].slot;
    var lane := s.slots[i].lane;
    var script := AbortScript(a, |lane|);
    if lane == [] {
      assert script[1..] == [];
      assert s.slots == s.slots[i := s.slots[i].(lane := [])];
    } else {
      var next := Apply(s, script[0]);
      assert script[1..] == AbortScript(a, |lane| - 1);
      DrainAlone(next, a);
      EmptiedOneMore(s, a, Exec(next, script[1..]));
    }
  }

  /** The whole call: answer what is in flight, take the lane's sender, then drain. */
  function WholeAbort(a: nat, i: nat, queued: nat): seq<Action> {
    [AbortStart(a, i)] + ([Abort(a, AnswerCurrent)] + ([Abort(a, TakeSender)] + AbortScript(a, queued)))
  }

  /** What it leaves: slot `i` closed, parked and empty; what its worker held and what was queued claimed. */
  ghost predicate Aborted(s: State, a: nat, i: nat, t: State)
    requires i < |s.slots|
  {
    && t.slots == s.slots[i := s.slots[i].(open := false, parked := true, lane := [])]
    && t.claimed == s.claimed + Held(s.slots[i].pc) + (set r | r in s.slots[i].lane)
    && t.drained == s.drained + |s.slots[i].lane|
    && t.aborters == s.aborters[a := Aborter(i, Finished, s.slots[i].pc.Crashed?)]
  }

  lemma AbortedAfter(s: State, a: nat, i: nat, mid: State, t: State)
    requires i < |s.slots| && a in mid.aborters && i < |mid.slots| && Emptied(mid, a, i, t)
    requires mid.slots == s.slots[i := s.slots[i].(open := false, parked := true)] && mid.drained == s.drained
    requires mid.claimed == s.claimed + Held(s.slots[i].pc)
    requires mid.aborters == s.aborters[a := Aborter(i, Drain, s.slots[i].pc.Crashed?)]
    ensures Aborted(s, a, i, t)
  {
  }

  /** `abort_slot`, by caller `a` on slot `i`, with nothing in between. */
  lemma AbortAlone(s: State, a: nat, i: nat)
    requires i < |s.slots| && a !in s.aborters
    ensures Legal(s, WholeAbort(a, i, |s.slots[i].lane|))
    ensures Aborted(s, a, i, Exec(s, WholeAbort(a, i, |s.slots[i].lane|)))
  {
    var n := |s.slots[i].lane|;
    var drain := AbortScript(a, n);
    var s1 := Apply(s, AbortStart(a, i));
    var s2 := Apply(s1, Abort(a, AnswerCurrent));
    var s3 := Apply(s2, Abort(a, TakeSender));
    DrainAlone(s3, a);
    AbortedAfter(s, a, i, s3, Exec(s3, drain));
    Before(s2, Abort(a, TakeSender), drain);
    Before(s1, Abort(a, AnswerCurrent), [Abort(a, TakeSender)] + drain);
    Before(s, AbortStart(a, i), [Abort(a, AnswerCurrent)] + ([Abort(a, TakeSender)] + drain));
  }
}
