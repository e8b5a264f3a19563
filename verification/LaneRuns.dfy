/** What runs of the lane hand-off do, told from their actions alone: lanes are queues, a retired lane is fed
    no more, and a worker that runs gets everything served. */
module LaneRuns {
  import opened Options
  import opened Lanes

  // ----- lanes are queues

  /** The requests a run sends to lane `i`, in order. */
  function SentTo(run: seq<Action>, i: nat): seq<Request> {
    if run == [] then []
    else (if run[0].Send? && run[0].i == i then [run[0].r] else []) + SentTo(run[1..], i)
  }

  /** The action receives from lane `i`, or throws its head away. */
  predicate Pops(s: State, a: Action, i: nat) {
    || (a.Take? && a.j == i)
    || (a.Abort? && a.abort.DropHead? && a.a in s.aborters && s.aborters[a.a].slot == i)
  }

  function Popped(s: State, run: seq<Action>, i: nat): nat
    requires Legal(s, run)
    decreases |run|
  {
    if run == [] then 0 else (if Pops(s, run[0], i) then 1 else 0) + Popped(Apply(s, run[0]), run[1..], i)
  }

  lemma LaneStep(s: State, a: Action, i: nat)
    requires Enabled(s, a) && i < |s.slots|
    ensures i < |Apply(s, a).slots|
    ensures var k := if Pops(s, a, i) then 1 else 0;
      && k <= |s.slots[i].lane + SentTo([a], i)|
      && Apply(s, a).slots[i].lane == (s.slots[i].lane + SentTo([a], i))[k..]
  {
    assert SentTo([a], i) == if a.Send? && a.i == i then [a.r] else [];
    match a {
      case Move(k, step) => MovedSlot(s, k, step);
      case _ =>
    }
  }

  lemma SentOn(run: seq<Action>, i: nat)
    requires run != []
    ensures SentTo(run, i) == SentTo([run[0]], i) + SentTo(run[1..], i)
  {
  }

  lemma QueueOn(lane: seq<Request>, now: seq<Request>, more: seq<Request>, j: nat, k: nat)
    requires j <= |lane + now| && k <= |(lane + now)[j..] + more|
    ensures j + k <= |lane + (now + more)| && ((lane + now)[j..] + more)[k..] == (lane + (now + more))[j + k..]
  {
    assert lane + (now + more) == (lane + now) + more;
  }

  /** In every run, from every state, a lane is a queue: what it holds in the end is what it held, followed by
      what was sent to it, without the front ones, as many as were received or thrown away. */
  lemma {:induction false} LaneIsAQueue(s: State, run: seq<Action>, i: nat)
    requires Legal(s, run) && i < |s.slots|
    ensures i < |Exec(s, run).slots| && Popped(s, run, i) <= |s.slots[i].lane + SentTo(run, i)|
    ensures Exec(s, run).slots[i].lane == (s.slots[i].lane + SentTo(run, i))[Popped(s, run, i)..]
    decreases |run|
  {
    if run != [] {
      var j, k := if Pops(s, run[0], i) then 1 else 0, Popped(Apply(s, run[0]), run[1..], i);
      LaneStep(s, run[0], i);
      LaneIsAQueue(Apply(s, run[0]), run[1..], i);
      SentOn(run, i);
      QueueOn(s.slots[i].lane, SentTo([run[0]], i), SentTo(run[1..], i), j, k);
    }
  }

  // ----- retirement

  /** Whether slot `i` is retired after the run: as the last retire or reset of it says. */
  function RetiredAfter(run: seq<Action>, i: nat, before: bool): bool {
    if run == [] then before
    else
      RetiredAfter(run[1..], i,
                   if run[0] == Move(i, Retire) then true else if run[0] == Reset(i) then false else before)
  }

  lemma RetiredStep(s: State, a: Action, i: nat)
    requires Enabled(s, a) && i < |s.slots|
    ensures i < |Apply(s, a).slots| && Apply(s, a).slots[i].retired == RetiredAfter([a], i, s.slots[i].retired)
  {
  }

  lemma {:induction false} RetiredExactly(s: State, run: seq<Action>, i: nat)
    requires Legal(s, run) && i < |s.slots|
    ensures i < |Exec(s, run).slots| && Exec(s, run).slots[i].retired == RetiredAfter(run, i, s.slots[i].retired)
    decreases |run|
  {
    if run != [] {
      RetiredStep(s, run[0], i);
      RetiredExactly(Apply(s, run[0]), run[1..], i);
    }
  }

  /** From a retirement until a reset nothing is sent to the lane: it only shrinks. */
  lemma {:induction false} RetiredIsFedNoMore(s: State, run: seq<Action>, i: nat)
    requires Legal(s, run) && i < |s.slots| && s.slots[i].retired && Reset(i) !in run
    ensures SentTo(run, i) == []
    ensures i < |Exec(s, run).slots| && Exec(s, run).slots[i].retired
    ensures Popped(s, run, i) <= |s.slots[i].lane|
    ensures Exec(s, run).slots[i].lane == s.slots[i].lane[Popped(s, run, i)..]
    decreases |run|
  {
    if run != [] {
      RetiredStep(s, run[0], i);
      RetiredIsFedNoMore(Apply(s, run[0]), run[1..], i);
    }
    LaneIsAQueue(s, run, i);
    assert s.slots[i].lane + [] == s.slots[i].lane;
  }

  /** So after `retire` itself, in every run. */
  lemma RetireStopsTheLane(s: State, run: seq<Action>, i: nat)
    requires i < |s.slots| && Legal(s, [Move(i, Retire)] + run) && Reset(i) !in run
    ensures forall r :: Send(i, r) !in run
    ensures var t := Exec(s, [Move(i, Retire)] + run);
      i < |t.slots| && exists k: nat :: k <= |s.slots[i].lane| && t.slots[i].lane == s.slots[i].lane[k..]
  {
    var first := Apply(s, Move(i, Retire));
    assert ([Move(i, Retire)] + run)[1..] == run;
    RetiredStep(s, Move(i, Retire), i);
    LaneStep(s, Move(i, Retire), i);
    RetiredIsFedNoMore(first, run, i);
    NotSent(run, i);
    assert first.slots[i].lane == s.slots[i].lane;
  }

  lemma {:induction false} NotSent(run: seq<Action>, i: nat)
    requires SentTo(run, i) == []
    ensures forall r :: Send(i, r) !in run
  {
    if run != [] {
      NotSent(run[1..], i);
      assert run == [run[0]] + run[1..];
    }
  }

  /** A retired worker that waits on an empty lane leaves at its next tick. */
  lemma RetiredLeavesWhenIdle(s: State, i: nat)
    requires i < |s.slots| && s.slots[i].retired && s.slots[i].pc == Waiting && s.slots[i].lane == []
    ensures var run := [Move(i, Tick), Move(i, CheckRetired), Move(i, LastEmpty)];
      Legal(s, run) && i < |Exec(s, run).slots| && Exec(s, run).slots[i].pc == Left(Retired)
  {
    var s1 := Apply(s, Move(i, Tick));
    var s2 := Apply(s1, Move(i, CheckRetired));
    assert Legal(Apply(s2, Move(i, LastEmpty)), []);
    Before(s2, Move(i, LastEmpty), []);
    Before(s1, Move(i, CheckRetired), [Move(i, LastEmpty)]);
    Before(s, Move(i, Tick), [Move(i, CheckRetired), Move(i, LastEmpty)]);
  }

  /** Handed on, the slot is fed again: with its lane open it accepts any request in hand at once, and its new
      worker has yet to start. */
  lemma ResetFeedsAgain(s: State, i: nat, r: Request)
    requires Inv(s) && i < |s.slots| && s.slots[i].pc == Left(Retired) && s.slots[i].open && r in s.hand
    ensures Enabled(s, Reset(i)) && Enabled(Apply(s, Reset(i)), Send(i, r))
    ensures Enabled(Apply(s, Reset(i)), Move(i, Start))
  {
  }

  // ----- a worker that runs gets everything served

  /** What worker `i` does next when it runs alone. */
  function Turn(s: State, i: nat): Action
    requires i < |s.slots| && (s.slots[i].pc.Vacant? || Running(s.slots[i].pc))
  {
    var slot := s.slots[i];
    match slot.pc
    case Vacant => Move(i, Start)
    case Own => if slot.lane != [] then Take(i, i, 0) else Move(i, if slot.open then OwnEmpty else OwnClosed)
    case Sweep(n) =>
      if n >= |s.slots| then Move(i, Park)
      else if n == i || s.slots[n].lane == [] then Move(i, StealNext)
      else Take(i, n, 0)
    case Waiting => if slot.lane != [] then Take(i, i, 0) else Move(i, if slot.open then Tick else OwnClosed)
    case TimedOut => Move(i, CheckRetired)
    case LastLook => if slot.lane != [] then Take(i, i, 0) else Move(i, LastEmpty)
    case TickSweep(n) =>
      if n >= |s.slots| then Move(i, TickSweepEnd)
      else if n == i || s.slots[n].lane == [] then Move(i, StealNext)
      else Take(i, n, 0)
    case Serving(_) => Finish(i)
  }

  /** Worker `i`'s own doing: no dispatcher, owner or other worker acts, and nothing stops it. */
  predicate ByWorker(a: Action, i: nat) {
    || (a.Move? && a.i == i && !a.step.Retire? && !a.step.Interrupt? && !a.step.Crash?)
    || (a.Take? && a.i == i)
    || a == Finish(i)
  }

  predicate Alone(run: seq<Action>, i: nat) {
    forall k :: 0 <= k < |run| ==> ByWorker(run[k], i)
  }

  lemma TurnIsEnabled(s: State, i: nat)
    requires i < |s.slots| && (s.slots[i].pc.Vacant? || Running(s.slots[i].pc))
    ensures Enabled(s, Turn(s, i)) && ByWorker(Turn(s, i), i)
  {
  }

  /** What one of its actions leaves alone. */
  lemma OwnStep(s: State, a: Action, i: nat, j: nat)
    requires Enabled(s, a) && ByWorker(a, i) && i < |s.slots| && j < |s.slots|
    ensures var t := Apply(s, a);
      && |t.slots| == |s.slots| && t.hand == s.hand && t.arrived == s.arrived && t.enqueued == s.enqueued
      && t.drained == s.drained && s.done <= t.done
      && t.slots[j].open == s.slots[j].open && t.slots[j].retired == s.slots[j].retired
      && (j != i ==> t.slots[j].pc == s.slots[j].pc)
  {
    match a {
      case Move(k, step) => MovedSlot(s, k, step);
      case _ =>
    }
  }

  /** A take leaves one request less in the lanes, any other own step as many. */
  lemma OwnQueued(s: State, a: Action, i: nat)
    requires Enabled(s, a) && ByWorker(a, i) && i < |s.slots|
    ensures Queued(Apply(s, a).slots) == Queued(s.slots) - if a.Take? then 1 else 0
  {
    match a {
      case Move(k, step) => MovedSlot(s, k, step); UpdateCounts(s.slots, k, Apply(s, a).slots[k]);
      case Take(k, j, wait) => AdmitCounts(s, k, j, wait);
      case Finish(k) => UpdateCounts(s.slots, k, Apply(s, a).slots[k]);
    }
  }

  function Position(pc: Pc): nat {
    if pc.Sweep? || pc.TickSweep? then pc.next else 0
  }

  /** How far a sweep has to go. */
  function ToGo(s: State, i: nat): nat
    requires i < |s.slots|
  {
    if Position(s.slots[i].pc) <= |s.slots| then |s.slots| - Position(s.slots[i].pc) else 0
  }

  function LeavePhase(slot: Slot): nat {
    match slot.pc
    case Serving(_) => 10
    case Vacant => 9
    case Own => 8
    case Sweep(_) => 7
    case TickSweep(_) => 6
    case Waiting => 5
    case TimedOut => if slot.retired then 4 else 7
    case LastLook => 3
    case _ => 0
  }

  /** On its way out, every turn that is no take gets the worker further. */
  lemma LeaveTurn(s: State, i: nat)
    requires i < |s.slots| && (s.slots[i].pc.Vacant? || Running(s.slots[i].pc))
    requires s.slots[i].retired || !s.slots[i].open
    ensures Enabled(s, Turn(s, i))
    ensures var t := Apply(s, Turn(s, i));
      && |t.slots| == |s.slots| && (t.slots[i].retired || !t.slots[i].open)
      && (t.slots[i].pc == Left(Retired) || t.slots[i].pc == Left(Closed) || Running(t.slots[i].pc))
      && (!Turn(s, i).Take? ==>
            || LeavePhase(t.slots[i]) < LeavePhase(s.slots[i])
            || (LeavePhase(t.slots[i]) == LeavePhase(s.slots[i]) && ToGo(t, i) < ToGo(s, i)))
  {
    TurnIsEnabled(s, i);
  }

  lemma AloneOn(a: Action, run: seq<Action>, i: nat)
    requires ByWorker(a, i) && Alone(run, i)
    ensures Alone([a] + run, i)
  {
  }

  /** A worker whose slot is retired or whose lane is closed can leave by its own doing, from wherever it is, and
      leaves its lane empty. */
  lemma {:induction false} WorkerLeaves(s: State, i: nat) returns (run: seq<Action>)
    requires Inv(s) && i < |s.slots| && (s.slots[i].pc.Vacant? || Running(s.slots[i].pc))
    requires s.slots[i].retired || !s.slots[i].open
    ensures Legal(s, run) && Alone(run, i) && i < |Exec(s, run).slots|
    ensures Exec(s, run).slots[i].pc == Left(Retired) || Exec(s, run).slots[i].pc == Left(Closed)
    ensures Exec(s, run).slots[i].lane == []
    decreases Queued(s.slots), LeavePhase(s.slots[i]), ToGo(s, i)
  {
    var a := Turn(s, i);
    TurnIsEnabled(s, i);
    LeaveTurn(s, i);
    OwnQueued(s, a, i);
    StepKeepsInv(s, a);
    var t := Apply(s, a);
    var rest := [];
    if Running(t.slots[i].pc) {
      rest := WorkerLeaves(t, i);
    }
    Before(s, a, rest);
    AloneOn(a, rest, i);
    run := [a] + rest;
  }

  /** The tick sweep has met no request so far, and there is none in the own lane. */
  predicate Clean(s: State, i: nat)
    requires i < |s.slots|
  {
    s.slots[i].lane == [] && forall j :: 0 <= j < Position(s.slots[i].pc) && j < |s.slots| ==> s.slots[j].lane == []
  }

  function ServePhase(s: State, i: nat): nat
    requires i < |s.slots|
  {
    match s.slots[i].pc
    case Serving(_) => 10
    case Vacant => 9
    case Own => 8
    case Sweep(_) => 7
    case TickSweep(_) => if Clean(s, i) then 3 else 6
    case Waiting => 5
    case TimedOut => if s.slots[i].lane == [] then 4 else 7
    case _ => 0
  }

  predicate InService(slot: Slot) {
    slot.open && !slot.retired && slot.pc != LastLook && (slot.pc.Vacant? || Running(slot.pc))
  }

  /** Every turn that is no take gets a worker in service nearer to the next request, if there is one in any lane. */
  lemma ServeTurn(s: State, i: nat)
    requires i < |s.slots| && InService(s.slots[i])
    requires s.slots[i].pc.Serving? || exists j :: 0 <= j < |s.slots| && s.slots[j].lane != []
    ensures Enabled(s, Turn(s, i))
    ensures var t := Apply(s, Turn(s, i));
      && |t.slots| == |s.slots| && InService(t.slots[i])
      && (!Turn(s, i).Take? ==>
            || ServePhase(t, i) < ServePhase(s, i)
            || (ServePhase(t, i) == ServePhase(s, i) && ToGo(t, i) < ToGo(s, i)))
  {
    TurnIsEnabled(s, i);
  }

  lemma {:induction false} SomeLoaded(slots: seq<Slot>)
    requires Queued(slots) > 0
    ensures exists j :: 0 <= j < |slots| && slots[j].lane != []
  {
    if slots[0].lane == [] {
      SomeLoaded(slots[1..]);
      var j :| 0 <= j < |slots[1..]| && slots[1..][j].lane != [];
      assert slots[j + 1].lane != [];
    }
  }

  /** A worker in service can empty every lane by its own doing, its siblings' as well, and answer all it took. */
  lemma {:induction false} WorkerServesAll(s: State, i: nat) returns (run: seq<Action>)
    requires Inv(s) && i < |s.slots| && InService(s.slots[i])
    ensures Legal(s, run) && Alone(run, i) && Inv(Exec(s, run)) && Queued(Exec(s, run).slots) == 0
    ensures i < |Exec(s, run).slots| && InService(Exec(s, run).slots[i]) && !Exec(s, run).slots[i].pc.Serving?
    decreases Queued(s.slots), ServePhase(s, i), ToGo(s, i)
  {
    if Queued(s.slots) == 0 && !s.slots[i].pc.Serving? {
      run := [];
    } else {
      if Queued(s.slots) > 0 {
        SomeLoaded(s.slots);
      }
      var a := Turn(s, i);
      TurnIsEnabled(s, i);
      ServeTurn(s, i);
      OwnQueued(s, a, i);
      StepKeepsInv(s, a);
      var rest := WorkerServesAll(Apply(s, a), i);
      Before(s, a, rest);
      AloneOn(a, rest, i);
      run := [a] + rest;
    }
  }

  lemma {:induction false} AloneKeeps(s: State, run: seq<Action>, i: nat, j: nat)
    requires Legal(s, run) && Alone(run, i) && i < |s.slots| && j < |s.slots|
    ensures var t := Exec(s, run);
      && |t.slots| == |s.slots| && t.hand == s.hand && t.arrived == s.arrived && t.enqueued == s.enqueued
      && t.drained == s.drained && (j != i ==> t.slots[j].pc == s.slots[j].pc)
    decreases |run|
  {
    if run != [] {
      assert ByWorker(run[0], i);
      OwnStep(s, run[0], i, j);
      assert forall k :: 0 <= k < |run[1..]| ==> run[1..][k] == run[k + 1];
      AloneKeeps(Apply(s, run[0]), run[1..], i, j);
    }
  }

  /** A request in a lane is in nobody's hands. */
  lemma InLaneOnly(s: State, j: nat, r: Request)
    requires Inv(s) && j < |s.slots| && r in s.slots[j].lane
    ensures r in s.arrived && r !in s.hand
    ensures forall k :: 0 <= k < |s.slots| ==> r !in Held(s.slots[k].pc)
  {
    PlacedArrived(s, j, r);
    assert Places(s, r) == 1;
    forall k | 0 <= k < |s.slots| ensures r !in Held(s.slots[k].pc) {
      if r in Held(s.slots[k].pc) {
        TwoPlaces(s.slots, j, k, r);
      }
    }
  }

  lemma {:induction false} TwoPlaces(slots: seq<Slot>, j: nat, k: nat, r: Request)
    requires j < |slots| && k < |slots| && r in slots[j].lane && r in Held(slots[k].pc)
    ensures PlacesInSlots(slots, r) >= 2
  {
    if j > 0 && k > 0 {
      TwoPlaces(slots[1..], j - 1, k - 1, r);
    } else if j > 0 {
      PlaceOf(slots[1..], j - 1, r);
    } else if k > 0 {
      PlaceOf(slots[1..], k - 1, r);
    }
  }

  lemma NoneQueued(slots: seq<Slot>, j: nat)
    requires Queued(slots) == 0 && j < |slots|
    ensures slots[j].lane == []
  {
    if j > 0 {
      NoneQueued(slots[1..], j - 1);
    }
  }

  /** So no request is stranded: as long as one worker is in service, every request in any lane can be served and
      answered, and each is counted once. */
  lemma NothingIsStranded(s: State, i: nat) returns (run: seq<Action>)
    requires Inv(s) && i < |s.slots| && InService(s.slots[i])
    ensures Legal(s, run) && Alone(run, i)
    ensures Exec(s, run).served == s.served + Queued(s.slots)
    ensures forall j, r :: 0 <= j < |s.slots| && r in s.slots[j].lane ==> r in Exec(s, run).done
  {
    run := WorkerServesAll(s, i);
    var t := Exec(s, run);
    AloneKeeps(s, run, i, i);
    forall j, r | 0 <= j < |s.slots| && r in s.slots[j].lane ensures r in t.done {
      InLaneOnly(s, j, r);
      assert Places(t, r) == 1;
      if r !in t.done {
        var k := Whereabouts(t.slots, r);
        NoneQueued(t.slots, k);
        AloneKeeps(s, run, i, k);
      }
    }
  }

  // ----- who stopped stays stopped

  /** After an interrupt, a nil or a crash a slot's worker does nothing more until the slot is reset, and a crashed
      one's slot is never reset. */
  lemma {:induction false} StoppedStays(s: State, run: seq<Action>, i: nat)
    requires Legal(s, run) && i < |s.slots| && (s.slots[i].pc.Left? || s.slots[i].pc.Crashed?)
    requires s.slots[i].pc.Left? ==> Reset(i) !in run
    ensures i < |Exec(s, run).slots|
    ensures s.slots[i].pc.Left? ==> Exec(s, run).slots[i].pc == s.slots[i].pc
    ensures s.slots[i].pc.Crashed? ==> Exec(s, run).slots[i].pc.Crashed?
    ensures forall k :: 0 <= k < |run| ==> !ByWorker(run[k], i)
    decreases |run|
  {
    if run != [] {
      StoppedStep(s, run[0], i);
      StoppedStays(Apply(s, run[0]), run[1..], i);
      assert run == [run[0]] + run[1..];
    }
  }

  lemma StoppedStep(s: State, a: Action, i: nat)
    requires Enabled(s, a) && i < |s.slots| && (s.slots[i].pc.Left? || s.slots[i].pc.Crashed?)
    requires s.slots[i].pc.Left? ==> a != Reset(i)
    ensures i < |Apply(s, a).slots| && !ByWorker(a, i)
    ensures s.slots[i].pc.Left? ==> Apply(s, a).slots[i].pc == s.slots[i].pc
    ensures s.slots[i].pc.Crashed? ==> Apply(s, a).slots[i].pc.Crashed?
  {
  }

  /** A waiting worker that is interrupted, or any running one that crashes, has stopped. */
  lemma InterruptAndCrashStop(s: State, i: nat)
    requires i < |s.slots|
    ensures CanMove(s, i, Interrupt) ==> Apply(s, Move(i, Interrupt)).slots[i].pc == Left(Interrupted)
    ensures CanMove(s, i, Crash) ==>
              Apply(s, Move(i, Crash)).slots[i].pc.Crashed?
              && Held(Apply(s, Move(i, Crash)).slots[i].pc) == Held(s.slots[i].pc)
  {
  }

  // ----- who parked last

  /** The slot's last parking, if it parked in the run and was not reset after that, as a place in the order of all
      parkings from `seq0` on. */
  function ParkedAfter(run: seq<Action>, i: nat, before: nat, seq0: nat): nat {
    if run == [] then before
    else
      var parks := run[0].Move? && run[0].step.Park?;
      ParkedAfter(run[1..], i,
                  if parks && run[0].i == i then seq0 + 1 else if run[0] == Reset(i) then 0 else before,
                  if parks then seq0 + 1 else seq0)
  }

  /** A slot's mark tells when it parked: so of two parked slots the one with the larger mark parked later. */
  lemma {:induction false} ParkedAtExactly(s: State, run: seq<Action>, i: nat)
    requires Legal(s, run) && i < |s.slots|
    ensures i < |Exec(s, run).slots|
    ensures Exec(s, run).slots[i].parkedAt == ParkedAfter(run, i, s.slots[i].parkedAt, s.parkSeq)
    decreases |run|
  {
    if run != [] {
      ParkStep(s, run[0], i);
      ParkedAtExactly(Apply(s, run[0]), run[1..], i);
    }
  }

  lemma ParkStep(s: State, a: Action, i: nat)
    requires Enabled(s, a) && i < |s.slots|
    ensures var parks := a.Move? && a.step.Park?; var t := Apply(s, a);
      && i < |t.slots| && t.parkSeq == (if parks then s.parkSeq + 1 else s.parkSeq)
      && t.slots[i].parkedAt
         == if parks && a.i == i then s.parkSeq + 1 else if a == Reset(i) then 0 else s.slots[i].parkedAt
  {
  }

  predicate Waits(pc: Pc) {
    pc.Waiting? || pc.TimedOut? || pc.LastLook? || pc.TickSweep?
  }

  /** Awake or parked: the flag is up exactly while a worker waits or looks around on a tick; a dead worker's slot
      keeps what it had, and an abort raises it for good. */
  predicate ParkedSlot(slot: Slot) {
    (Waits(slot.pc) ==> slot.parked) && (slot.parked && slot.open ==> Waits(slot.pc) || slot.pc.Crashed?)
  }

  predicate ParkedOk(s: State, i: nat)
    requires i < |s.slots|
  {
    ParkedSlot(s.slots[i])
  }

  lemma ParkedMove(s: State, k: nat, step: SlotStep)
    requires k < |s.slots| && CanMove(s, k, step) && ParkedSlot(s.slots[k])
    ensures ParkedSlot(Moved(s.slots[k], step, s.parkSeq))
  {
  }

  lemma ParkedStep(s: State, a: Action, i: nat)
    requires Enabled(s, a) && i < |Apply(s, a).slots| && (i < |s.slots| ==> ParkedOk(s, i))
    ensures ParkedOk(Apply(s, a), i)
  {
    match a {
      case Move(k, step) => if k == i { ParkedMove(s, k, step); }
      case _ =>
    }
  }

  lemma {:induction false} ParkedRun(s: State, run: seq<Action>, i: nat)
    requires Legal(s, run) && (forall j :: 0 <= j < |s.slots| ==> ParkedOk(s, j)) && i < |Exec(s, run).slots|
    ensures ParkedOk(Exec(s, run), i)
    decreases |run|
  {
    if run != [] {
      var t := Apply(s, run[0]);
      forall j | 0 <= j < |t.slots| ensures ParkedOk(t, j) {
        ParkedStep(s, run[0], j);
      }
      ParkedRun(t, run[1..], i);
    }
  }

  /** In every run: a dispatcher that finds an open lane's flag down finds a worker that is not waiting there. */
  lemma ParkedMeansWaiting(s: State, run: seq<Action>, i: nat)
    requires Reached(s, run) && i < |s.slots|
    ensures ParkedOk(s, i)
  {
    ParkedRun(InitialState(), run, i);
  }

  // ----- the rest of a slot, from the actions alone

  /** The action closes lane `i`. */
  predicate Closes(s: State, a: Action, i: nat) {
    || (a == Close(CloseNext) && s.closer == Closing(i))
    || (a.Abort? && a.abort.TakeSender? && a.a in s.aborters && s.aborters[a.a].slot == i)
  }

  predicate ClosedIn(s: State, run: seq<Action>, i: nat)
    requires Legal(s, run)
    decreases |run|
  {
    run != [] && (Closes(s, run[0], i) || ClosedIn(Apply(s, run[0]), run[1..], i))
  }

  lemma OpenStep(s: State, a: Action, i: nat)
    requires Enabled(s, a) && i < |s.slots|
    ensures i < |Apply(s, a).slots| && Apply(s, a).slots[i].open == (s.slots[i].open && !Closes(s, a, i))
  {
    match a {
      case Move(k, step) => MovedSlot(s, k, step);
      case _ =>
    }
  }

  /** A lane is closed by `close_queue` and by an abort of its slot, and by nothing else. */
  lemma {:induction false} OpenExactly(s: State, run: seq<Action>, i: nat)
    requires Legal(s, run) && i < |s.slots|
    ensures i < |Exec(s, run).slots| && Exec(s, run).slots[i].open == (s.slots[i].open && !ClosedIn(s, run, i))
    decreases |run|
  {
    if run != [] {
      OpenStep(s, run[0], i);
      OpenExactly(Apply(s, run[0]), run[1..], i);
    }
  }

  /** How many requests worker `i` took since its slot was last reset. */
  function ServedAfter(run: seq<Action>, i: nat, before: nat): nat {
    if run == [] then before
    else
      ServedAfter(run[1..], i,
                  if run[0].Take? && run[0].i == i then before + 1 else if run[0] == Reset(i) then 0 else before)
  }

  /** The waits of the takes of a run. */
  function WaitsOf(run: seq<Action>): seq<nat> {
    if run == [] then [] else (if run[0].Take? then [run[0].wait] else []) + WaitsOf(run[1..])
  }

  lemma ServedStep(s: State, a: Action, i: nat)
    requires Enabled(s, a) && i < |s.slots|
    ensures i < |Apply(s, a).slots| && Apply(s, a).slots[i].served == ServedAfter([a], i, s.slots[i].served)
  {
    match a {
      case Move(k, step) => MovedSlot(s, k, step);
      case _ =>
    }
  }

  /** Each slot's total is what its own worker took. */
  lemma {:induction false} ServedExactly(s: State, run: seq<Action>, i: nat)
    requires Legal(s, run) && i < |s.slots|
    ensures i < |Exec(s, run).slots| && Exec(s, run).slots[i].served == ServedAfter(run, i, s.slots[i].served)
    decreases |run|
  {
    if run != [] {
      ServedStep(s, run[0], i);
      ServedExactly(Apply(s, run[0]), run[1..], i);
    }
  }

  /** And the waits recorded are those of the takes, in order. */
  lemma {:induction false} WaitsExactly(s: State, run: seq<Action>)
    requires Legal(s, run)
    ensures Exec(s, run).waits == s.waits + WaitsOf(run)
    decreases |run|
  {
    if run != [] {
      WaitsExactly(Apply(s, run[0]), run[1..]);
      WaitsStep(s, run[0]);
      assert s.waits + ((if run[0].Take? then [run[0].wait] else []) + WaitsOf(run[1..]))
          == (s.waits + if run[0].Take? then [run[0].wait] else []) + WaitsOf(run[1..]);
    }
  }

  lemma WaitsStep(s: State, a: Action)
    requires Enabled(s, a)
    ensures Apply(s, a).waits == s.waits + if a.Take? then [a.wait] else []
  {
  }

  // ----- close_queue as protocol actions

  function CloseFrom(k: nat, n: nat): seq<Action>
    requires k <= n
    decreases n - k
  {
    if k == n then [Close(CloseEnd)] else [Close(CloseNext)] + CloseFrom(k + 1, n)
  }

  /** Lanes from `k` on closed; nothing else differs. */
  ghost predicate ClosedBehind(s: State, k: nat, t: State) {
    && |t.slots| == |s.slots| && t == s.(slots := t.slots, closer := AllClosed(|s.slots|))
    && forall i :: 0 <= i < |s.slots| ==> t.slots[i] == if i < k then s.slots[i] else s.slots[i].(open := false)
  }

  lemma {:induction false} CloseRest(s: State, k: nat)
    requires k <= |s.slots| && s.closer == Closing(k)
    ensures Legal(s, CloseFrom(k, |s.slots|)) && ClosedBehind(s, k, Exec(s, CloseFrom(k, |s.slots|)))
    decreases |s.slots| - k
  {
    if k == |s.slots| {
      assert Legal(Apply(s, Close(CloseEnd)), []);
      Before(s, Close(CloseEnd), []);
      assert [Close(CloseEnd)] + [] == [Close(CloseEnd)];
    } else {
      CloseRest(Apply(s, Close(CloseNext)), k + 1);
      Before(s, Close(CloseNext), CloseFrom(k + 1, |s.slots|));
    }
  }

  /** `close_queue`, with nothing in between: every lane registered is closed, and nothing else changes. */
  lemma CloseQueueAlone(s: State)
    requires s.closer == NotClosing
    ensures Legal(s, [Close(CloseBegin)] + CloseFrom(0, |s.slots|))
    ensures ClosedBehind(s, 0, Exec(s, [Close(CloseBegin)] + CloseFrom(0, |s.slots|)))
  {
    CloseRest(Apply(s, Close(CloseBegin)), 0);
    Before(s, Close(CloseBegin), CloseFrom(0, |s.slots|));
  }

  // ----- a steal sweep misses nobody

  function StealSteps(i: nat, n: nat): seq<Action> {
    if n == 0 then [] else [Move(i, StealNext)] + StealSteps(i, n - 1)
  }

  /** A sweep at position `k` gets by itself to the first sibling that has something. */
  lemma {:induction false} SweepReaches(s: State, i: nat, k: nat, j: nat)
    requires i < |s.slots| && k <= j < |s.slots| && j != i && s.slots[j].lane != []
    requires s.slots[i].pc == Sweep(k) || s.slots[i].pc == TickSweep(k)
    requires forall n :: k <= n < j && n != i ==> s.slots[n].lane == []
    ensures Legal(s, StealSteps(i, j - k)) && |Exec(s, StealSteps(i, j - k)).slots| == |s.slots|
    ensures CanTake(Exec(s, StealSteps(i, j - k)), i, j)
    decreases j - k
  {
    if k < j {
      var t := Apply(s, Move(i, StealNext));
      SweepReaches(t, i, k + 1, j);
      Before(s, Move(i, StealNext), StealSteps(i, j - k - 1));
    }
  }

  /** A worker that finds its own lane empty, or ticks and is not retired, looks at every sibling: left to itself it
      next receives from the first in the table that has something. */
  lemma StealsFromTheFirst(s: State, i: nat, j: nat)
    requires i < |s.slots| && j < |s.slots| && j != i && s.slots[j].lane != [] && s.slots[i].lane == []
    requires forall n :: 0 <= n < j && n != i ==> s.slots[n].lane == []
    requires (s.slots[i].pc == Own && s.slots[i].open) || (s.slots[i].pc == TimedOut && !s.slots[i].retired)
    ensures var run := [Move(i, if s.slots[i].pc.Own? then OwnEmpty else CheckRetired)] + StealSteps(i, j);
      Legal(s, run) && j < |Exec(s, run).slots| && CanTake(Exec(s, run), i, j)
  {
    var first := Move(i, if s.slots[i].pc.Own? then OwnEmpty else CheckRetired);
    SweepReaches(Apply(s, first), i, 0, j);
    Before(s, first, StealSteps(i, j));
  }

  /** The first sibling of `i` with something in its lane. */
  lemma FirstSibling(s: State, i: nat, j: nat) returns (first: nat)
    requires j < |s.slots| && j != i && s.slots[j].lane != []
    ensures first < |s.slots| && first != i && s.slots[first].lane != []
    ensures forall n :: 0 <= n < first && n != i ==> s.slots[n].lane == []
    decreases j
  {
    if n: nat :| n < j && n != i && s.slots[n].lane != [] {
      first := FirstSibling(s, i, n);
    } else {
      first := j;
    }
  }

  /** A worker that starts, or has answered, does not park while there is something in any lane: left to itself it
      goes straight to its next request. */
  lemma NextWithoutParking(s: State, i: nat, j: nat) returns (run: seq<Action>, from: nat)
    requires i < |s.slots| && (s.slots[i].pc.Vacant? || s.slots[i].pc.Serving?) && s.slots[i].open
    requires j < |s.slots| && s.slots[j].lane != []
    ensures Legal(s, run) && Move(i, Park) !in run && CanTake(Exec(s, run), i, from)
    ensures s.slots[i].lane != [] ==> from == i
  {
    var a := if s.slots[i].pc.Vacant? then Move(i, Start) else Finish(i);
    var t := Apply(s, a);
    if s.slots[i].lane != [] {
      Before(s, a, []);
      run, from := [a] + [], i;
    } else {
      from := FirstSibling(t, i, j);
      StealsFromTheFirst(t, i, from);
      var rest := [Move(i, OwnEmpty)] + StealSteps(i, from);
      Before(s, a, rest);
      NoPark(i, from);
      run := [a] + rest;
    }
  }

  lemma {:induction false} NoPark(i: nat, n: nat)
    ensures Move(i, Park) !in StealSteps(i, n)
  {
    if n > 0 {
      NoPark(i, n - 1);
    }
  }

  // ----- in a dispatcher's hand

  /** Whether a dispatcher holds `r` after the run: from its arrival until it is sent or given up. */
  function HandAfter(run: seq<Action>, r: Request, before: bool): bool {
    if run == [] then before
    else
      HandAfter(run[1..], r,
                if run[0] == Arrive(r) then true
                else if run[0] == GiveUp(r) || (run[0].Send? && run[0].r == r) then false
                else before)
  }

  lemma HandStep(s: State, a: Action, r: Request)
    requires Enabled(s, a)
    ensures r in Apply(s, a).hand <==> HandAfter([a], r, r in s.hand)
  {
  }

  lemma {:induction false} HandExactly(s: State, run: seq<Action>, r: Request)
    requires Legal(s, run)
    ensures r in Exec(s, run).hand <==> HandAfter(run, r, r in s.hand)
    decreases |run|
  {
    if run != [] {
      HandStep(s, run[0], r);
      HandExactly(Apply(s, run[0]), run[1..], r);
    }
  }

  lemma {:induction false} DoneStays(s: State, run: seq<Action>, r: Request)
    requires Legal(s, run) && r in s.done
    ensures r in Exec(s, run).done
    decreases |run|
  {
    if run != [] {
      DoneStays(Apply(s, run[0]), run[1..], r);
    }
  }

  /** A request given up is dropped, its responder claimed, for good: it is never sent. */
  lemma GivenUpIsDone(s: State, r: Request, run: seq<Action>)
    requires Inv(s) && r in s.hand && Legal(s, [GiveUp(r)] + run)
    ensures r in Exec(s, [GiveUp(r)] + run).done && r in Exec(s, [GiveUp(r)] + run).claimed
  {
    assert ([GiveUp(r)] + run)[1..] == run;
    var t := Apply(s, GiveUp(r));
    StepKeepsInv(s, GiveUp(r));
    DoneStays(t, run, r);
    RunKeepsInv(t, run);
  }

  // ----- what may always happen

  /** The surroundings are not held up by the protocol: a dispatcher may give up, a slot may be retired, a waiting
      worker be interrupted, a running one crash, and a dead one's heap be collected, in whatever state the rest is. */
  lemma SurroundingsAreFree(s: State, i: nat, r: Request)
    ensures r in s.hand ==> Enabled(s, GiveUp(r))
    ensures i < |s.slots| ==>
      && Enabled(s, Move(i, Retire))
      && (s.slots[i].pc.Waiting? ==> Enabled(s, Move(i, Interrupt)))
      && (Running(s.slots[i].pc) ==> Enabled(s, Move(i, Crash)))
      && (s.slots[i].pc.Crashed? && Held(s.slots[i].pc) != {} ==> Enabled(s, Collect(i)))
  {
  }
}
