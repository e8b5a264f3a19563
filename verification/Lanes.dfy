/** The lane hand-off between the dispatcher, the worker slots, the pool scaler,
    the crash supervisor and shutdown, as a transition system.

    One action is one lane-lock critical section or one channel operation, so every
    interleaving the code allows is a legal list of actions. Slots are never removed;
    a slot's worker is a program counter through `lane_take`. */
module Lanes {
  import opened Options

  const LANE_DEPTH: nat := 4

  type Request = nat

  /** Why a worker's take returned nil. */
  datatype Exit = Closed | Retired | Interrupted

  /** Where a slot's worker stands between two atomic steps. */
  datatype Pc =
    | Vacant                       // fresh or reset slot, worker not started yet
    | Own                          // checkout done, about to try its own lane
    | Sweep(next: nat)             // hot steal sweep, about to try slots[next]
    | Waiting                      // parked in recv_timeout on its own lane
    | TimedOut                     // the tick elapsed, about to read the retired flag
    | LastLook                     // saw the retired flag, about to drain its own lane
    | TickSweep(next: nat)         // periodic steal sweep after a tick
    | Serving(request: Request)    // admitted a request
    | Left(exit: Exit)             // the loop ended
    | Crashed(held: Option<Request>)

  datatype Slot = Slot(
    open: bool,          // lane_tx is still there
    lane: seq<Request>,  // lane_rx
    retired: bool,
    parked: bool,
    parkedAt: nat,
    served: nat,
    pc: Pc)

  datatype AbortPc = Answer | CloseLane | Drain | Finished

  /** One running `abort_slot` call. `sawCrash`: its slot's worker was dead when the
      in-flight list was answered. */
  datatype Aborter = Aborter(slot: nat, pc: AbortPc, sawCrash: bool)

  /** Progress of `close_queue`, which holds the slot table's read lock throughout. */
  datatype Closer = NotClosing | Closing(next: nat) | AllClosed(upto: nat)

  datatype State = State(
    slots: seq<Slot>,
    hand: set<Request>,     // in a dispatcher's hand
    done: set<Request>,     // request context dropped
    claimed: set<Request>,  // responder claimed
    arrived: set<Request>,
    closer: Closer,
    aborters: map<nat, Aborter>,
    parkSeq: nat,
    // counters
    enqueued: nat,
    served: nat,
    waits: seq<nat>,        // what the queue-wait histogram recorded
    drained: nat,           // thrown away by abort_slot
    discarded: nat)         // per-slot served counts zeroed by reset

  /** Steps that change one slot's flags and program counter, and no lane. */
  datatype SlotStep =
    | Start          // the worker thread begins its loop
    | OwnClosed      // own lane empty and disconnected: nil
    | OwnEmpty       // own lane empty: start the steal sweep
    | StealNext      // this sibling has nothing: next one
    | Park           // sweep done: raise the parked flag, wait on the own lane
    | Tick           // recv_timeout elapsed
    | CheckRetired   // after_timeout reads the retired flag
    | LastEmpty      // retired and own lane empty: nil
    | TickSweepEnd   // nothing to steal: wait again
    | Interrupt      // the shutdown kick: nil
    | Crash
    | Retire         // under the lane lock

  datatype CloseStep = CloseBegin | CloseNext | CloseEnd

  datatype AbortStep = AnswerCurrent | TakeSender | DropHead | SeeEmpty

  datatype Action =
    | Arrive(r: Request)
    | Send(i: nat, r: Request)             // try_lane, under the lane lock
    | GiveUp(r: Request)                   // 503
    | Register
    | Move(i: nat, step: SlotStep)
    | Take(i: nat, j: nat, wait: nat)      // worker i receives from lane j and admits
    | Finish(i: nat)                       // the worker answered
    | Collect(i: nat)                      // a dead worker's heap drops its request
    | Reset(i: nat)                        // under the lane lock
    | Close(close: CloseStep)
    | AbortStart(a: nat, i: nat)
    | Abort(a: nat, abort: AbortStep)

  function FreshSlot(): Slot {
    Slot(true, [], false, false, 0, 0, Vacant)
  }

  function InitialState(): State {
    State([], {}, {}, {}, {}, NotClosing, map[], 0, 0, 0, [], 0, 0)
  }

  predicate Accepts(slot: Slot) {
    slot.open && !slot.retired && |slot.lane| < LANE_DEPTH
  }

  predicate Running(pc: Pc) {
    !pc.Vacant? && !pc.Left? && !pc.Crashed?
  }

  predicate Sweeping(pc: Pc) {
    pc.Sweep? || pc.TickSweep?
  }

  /** The request a worker (or a dead worker's heap) holds. */
  function Held(pc: Pc): set<Request> {
    match pc
    case Serving(r) => {r}
    case Crashed(Some(r)) => {r}
    case _ => {}
  }

  predicate CanMove(s: State, i: nat, step: SlotStep)
    requires i < |s.slots|
  {
    var slot := s.slots[i];
    match step
    case Start => slot.pc == Vacant
    case OwnClosed => (slot.pc == Own || slot.pc == Waiting) && slot.lane == [] && !slot.open
    case OwnEmpty => slot.pc == Own && slot.lane == [] && slot.open
    case StealNext =>
      Sweeping(slot.pc) && slot.pc.next < |s.slots| && (slot.pc.next == i || s.slots[slot.pc.next].lane == [])
    case Park => slot.pc.Sweep? && slot.pc.next >= |s.slots|
    case Tick => slot.pc == Waiting
    case CheckRetired => slot.pc == TimedOut
    case LastEmpty => slot.pc == LastLook && slot.lane == []
    case TickSweepEnd => slot.pc.TickSweep? && slot.pc.next >= |s.slots|
    case Interrupt => slot.pc == Waiting
    case Crash => Running(slot.pc)
    case Retire => true
  }

  function Moved(slot: Slot, step: SlotStep, parkSeq: nat): Slot
    requires step.StealNext? ==> Sweeping(slot.pc)
  {
    match step
    case Start => slot.(pc := Own)
    case OwnClosed => slot.(pc := Left(Closed), parked := false)
    case OwnEmpty => slot.(pc := Sweep(0))
    case StealNext => slot.(pc := if slot.pc.Sweep? then Sweep(slot.pc.next + 1) else TickSweep(slot.pc.next + 1))
    case Park => slot.(pc := Waiting, parked := true, parkedAt := parkSeq + 1)
    case Tick => slot.(pc := TimedOut)
    case CheckRetired => slot.(pc := if slot.retired then LastLook else TickSweep(0))
    case LastEmpty => slot.(pc := Left(Retired), parked := false)
    case TickSweepEnd => slot.(pc := Waiting)
    case Interrupt => slot.(pc := Left(Interrupted), parked := false)
    case Crash => slot.(pc := Crashed(if slot.pc.Serving? then Some(slot.pc.request) else None))
    case Retire => slot.(retired := true)
  }

  /** Worker `i` may receive from lane `j`: its own, or the sibling its sweep has reached. */
  predicate CanTake(s: State, i: nat, j: nat) {
    && i < |s.slots| && j < |s.slots| && s.slots[j].lane != []
    && var pc := s.slots[i].pc;
       if i == j then pc == Own || pc == Waiting || pc == LastLook
       else Sweeping(pc) && pc.next == j
  }

  predicate CanAbort(s: State, a: nat, step: AbortStep) {
    && a in s.aborters && s.aborters[a].slot < |s.slots|
    && var b := s.aborters[a];
       match step
       case AnswerCurrent => b.pc == Answer
       case TakeSender => b.pc == CloseLane
       case DropHead => b.pc == Drain && s.slots[b.slot].lane != []
       case SeeEmpty => b.pc == Drain && s.slots[b.slot].lane == []
  }

  predicate Enabled(s: State, a: Action) {
    match a
    case Arrive(r) => r !in s.arrived
    case Send(i, r) => r in s.hand && i < |s.slots| && Accepts(s.slots[i])
    case GiveUp(r) => r in s.hand
    case Register => !s.closer.Closing?
    case Move(i, step) => i < |s.slots| && CanMove(s, i, step)
    case Take(i, j, _) => CanTake(s, i, j)
    case Finish(i) => i < |s.slots| && s.slots[i].pc.Serving?
    case Collect(i) => i < |s.slots| && s.slots[i].pc.Crashed? && s.slots[i].pc.held.Some?
    case Reset(i) => i < |s.slots| && s.slots[i].pc.Left?
    case Close(CloseBegin) => s.closer == NotClosing
    case Close(CloseNext) => s.closer.Closing? && s.closer.next < |s.slots|
    case Close(CloseEnd) => s.closer.Closing? && s.closer.next == |s.slots|
    case AbortStart(b, i) => b !in s.aborters && i < |s.slots|
    case Abort(b, step) => CanAbort(s, b, step)
  }

  function SetSlot(s: State, i: nat, slot: Slot): State
    requires i < |s.slots|
  {
    s.(slots := s.slots[i := slot])
  }

  /** A request context is dropped: its responder is claimed by then, or by the drop. */
  function Settle(s: State, r: Request): State {
    s.(done := s.done + {r}, claimed := s.claimed + {r})
  }

  /** Worker `i` pops the head of lane `j` and admits it: the take and the counters. */
  function Admit(s: State, i: nat, j: nat, wait: nat): State
    requires i < |s.slots| && j < |s.slots| && s.slots[j].lane != []
  {
    var r := s.slots[j].lane[0];
    var popped := s.slots[j := s.slots[j].(lane := s.slots[j].lane[1..])];
    var worker := popped[i].(pc := Serving(r), served := popped[i].served + 1, parked := false);
    s.(slots := popped[i := worker], served := s.served + 1, waits := s.waits + [wait])
  }

  function ApplyClose(s: State, step: CloseStep): State
    requires Enabled(s, Close(step))
  {
    match step
    case CloseBegin => s.(closer := Closing(0))
    case CloseNext =>
      SetSlot(s, s.closer.next, s.slots[s.closer.next].(open := false)).(closer := Closing(s.closer.next + 1))
    case CloseEnd => s.(closer := AllClosed(|s.slots|))
  }

  function ApplyAbort(s: State, a: nat, step: AbortStep): State
    requires CanAbort(s, a, step)
  {
    var i := s.aborters[a].slot;
    match step
    case AnswerCurrent =>
      s.(claimed := s.claimed + Held(s.slots[i].pc),
      aborters := s.aborters[a := Aborter(i, CloseLane, s.slots[i].pc.Crashed?)])
    case TakeSender =>
      SetSlot(s, i, s.slots[i].(open := false, parked := true)).(
      aborters := s.aborters[a := s.aborters[a].(pc := Drain)])
    case DropHead =>
      Settle(SetSlot(s, i, s.slots[i].(lane := s.slots[i].lane[1..])), s.slots[i].lane[0]).(
      drained := s.drained + 1)
    case SeeEmpty => s.(aborters := s.aborters[a := s.aborters[a].(pc := Finished)])
  }

  function Apply(s: State, a: Action): State
    requires Enabled(s, a)
  {
    match a
    case Arrive(r) => s.(arrived := s.arrived + {r}, hand := s.hand + {r})
    case Send(i, r) =>
      SetSlot(s, i, s.slots[i].(lane := s.slots[i].lane + [r])).(
      hand := s.hand - {r}, enqueued := s.enqueued + 1)
    case GiveUp(r) => Settle(s.(hand := s.hand - {r}), r)
    case Register => s.(slots := s.slots + [FreshSlot()])
    case Move(i, step) =>
      SetSlot(s, i, Moved(s.slots[i], step, s.parkSeq)).(
      parkSeq := if step.Park? then s.parkSeq + 1 else s.parkSeq)
    case Take(i, j, wait) => Admit(s, i, j, wait)
    case Finish(i) => Settle(SetSlot(s, i, s.slots[i].(pc := Own)), s.slots[i].pc.request)
    case Collect(i) => Settle(SetSlot(s, i, s.slots[i].(pc := Crashed(None))), s.slots[i].pc.held.value)
    case Reset(i) =>
      SetSlot(s, i, s.slots[i].(retired := false, parked := false, parkedAt := 0, served := 0, pc := Vacant)).(
      discarded := s.discarded + s.slots[i].served)
    case Close(step) => ApplyClose(s, step)
    case AbortStart(b, i) => s.(aborters := s.aborters[b := Aborter(i, Answer, false)])
    case Abort(b, step) => ApplyAbort(s, b, step)
  }

  /** Every action of the run is enabled when its turn comes. */
  predicate Legal(s: State, run: seq<Action>)
    decreases |run|
  {
    run == [] || (Enabled(s, run[0]) && Legal(Apply(s, run[0]), run[1..]))
  }

  function Exec(s: State, run: seq<Action>): State
    requires Legal(s, run)
    decreases |run|
  {
    if run == [] then s else Exec(Apply(s, run[0]), run[1..])
  }

  /** One action before a run. */
  lemma Before(s: State, first: Action, rest: seq<Action>)
    requires Enabled(s, first) && Legal(Apply(s, first), rest)
    ensures Legal(s, [first] + rest) && Exec(s, [first] + rest) == Exec(Apply(s, first), rest)
  {
    assert ([first] + rest)[1..] == rest;
  }

  // ----- what every state of every run satisfies

  /** How many places of one slot hold request `r`: its lane, its worker. */
  function PlacesInSlot(slot: Slot, r: Request): nat {
    multiset(slot.lane)[r] + if r in Held(slot.pc) then 1 else 0
  }

  function PlacesInSlots(slots: seq<Slot>, r: Request): nat {
    if slots == [] then 0 else PlacesInSlot(slots[0], r) + PlacesInSlots(slots[1..], r)
  }

  /** How many places of the whole system hold request `r`. */
  function Places(s: State, r: Request): nat {
    (if r in s.hand then 1 else 0) + (if r in s.done then 1 else 0) + PlacesInSlots(s.slots, r)
  }

  /** `queued()`: the lane depths summed. */
  function Queued(slots: seq<Slot>): nat {
    if slots == [] then 0 else |slots[0].lane| + Queued(slots[1..])
  }

  function SlotServed(slots: seq<Slot>): nat {
    if slots == [] then 0 else slots[0].served + SlotServed(slots[1..])
  }

  /** Every request that arrived sits in exactly one place, and no other request sits anywhere. */
  ghost predicate Conserved(s: State) {
    && (forall r :: Places(s, r) == if r in s.arrived then 1 else 0)
    && s.done <= s.claimed <= s.arrived
  }

  predicate SlotOk(slot: Slot) {
    && |slot.lane| <= LANE_DEPTH
    && (slot.pc == LastLook ==> slot.retired)
    && (slot.pc == Left(Retired) ==> slot.retired && slot.lane == [])
    && (slot.pc == Left(Closed) ==> !slot.open && slot.lane == [])
  }

  predicate SlotsOk(s: State) {
    forall i :: 0 <= i < |s.slots| ==> SlotOk(s.slots[i])
  }

  predicate CloserOk(s: State) {
    match s.closer
    case NotClosing => true
    case Closing(k) => k <= |s.slots| && forall i :: 0 <= i < k ==> !s.slots[i].open
    case AllClosed(k) => k <= |s.slots| && forall i :: 0 <= i < k ==> !s.slots[i].open
  }

  predicate AborterOk(s: State, b: Aborter) {
    && b.slot < |s.slots|
    && (b.pc.Drain? || b.pc.Finished? ==> !s.slots[b.slot].open)
    && (b.pc.Finished? ==> s.slots[b.slot].lane == [])
    && (b.sawCrash ==> s.slots[b.slot].pc.Crashed? && forall r :: r in Held(s.slots[b.slot].pc) ==> r in s.claimed)
  }

  predicate AbortersOk(s: State) {
    forall a :: a in s.aborters ==> AborterOk(s, s.aborters[a])
  }

  predicate CountersOk(s: State) {
    && s.enqueued == s.served + Queued(s.slots) + s.drained
    && s.served == |s.waits|
    && s.served == SlotServed(s.slots) + s.discarded
  }

  ghost predicate Inv(s: State) {
    Conserved(s) && SlotsOk(s) && CloserOk(s) && AbortersOk(s) && CountersOk(s)
  }

  /** Replacing one slot moves each sum by that slot's difference. */
  lemma {:induction false} UpdatePlaces(slots: seq<Slot>, i: nat, slot: Slot, r: Request)
    requires i < |slots|
    ensures PlacesInSlots(slots[i := slot], r) + PlacesInSlot(slots[i], r)
         == PlacesInSlots(slots, r) + PlacesInSlot(slot, r)
  {
    var next := slots[i := slot];
    if i == 0 {
      assert next[1..] == slots[1..];
    } else {
      UpdatePlaces(slots[1..], i - 1, slot, r);
      assert next[1..] == slots[1..][i - 1 := slot];
    }
  }

  lemma {:induction false} UpdateCounts(slots: seq<Slot>, i: nat, slot: Slot)
    requires i < |slots|
    ensures Queued(slots[i := slot]) + |slots[i].lane| == Queued(slots) + |slot.lane|
    ensures SlotServed(slots[i := slot]) + slots[i].served == SlotServed(slots) + slot.served
  {
    var next := slots[i := slot];
    if i == 0 {
      assert next[1..] == slots[1..];
    } else {
      UpdateCounts(slots[1..], i - 1, slot);
      assert next[1..] == slots[1..][i - 1 := slot];
    }
  }

  lemma {:induction false} AppendPlaces(slots: seq<Slot>, r: Request)
    ensures PlacesInSlots(slots + [FreshSlot()], r) == PlacesInSlots(slots, r)
  {
    if slots == [] {
      assert slots + [FreshSlot()] == [FreshSlot()];
    } else {
      AppendPlaces(slots[1..], r);
      assert (slots + [FreshSlot()])[1..] == slots[1..] + [FreshSlot()];
    }
  }

  lemma {:induction false} AppendCounts(slots: seq<Slot>)
    ensures Queued(slots + [FreshSlot()]) == Queued(slots)
    ensures SlotServed(slots + [FreshSlot()]) == SlotServed(slots)
  {
    if slots == [] {
      assert slots + [FreshSlot()] == [FreshSlot()];
    } else {
      AppendCounts(slots[1..]);
      assert (slots + [FreshSlot()])[1..] == slots[1..] + [FreshSlot()];
    }
  }

  lemma {:induction false} PlaceOf(slots: seq<Slot>, i: nat, r: Request)
    requires i < |slots|
    ensures PlacesInSlot(slots[i], r) <= PlacesInSlots(slots, r)
  {
    if i > 0 {
      PlaceOf(slots[1..], i - 1, r);
    }
  }

  /** Changing one slot keeps every request's place when the slot's own contents are unchanged. */
  lemma SameContents(slots: seq<Slot>, i: nat, slot: Slot, r: Request)
    requires i < |slots| && slot.lane == slots[i].lane && Held(slot.pc) == Held(slots[i].pc)
    ensures PlacesInSlots(slots[i := slot], r) == PlacesInSlots(slots, r)
  {
    UpdatePlaces(slots, i, slot, r);
  }

  /** Popping the head of a lane takes exactly that request out of it. */
  lemma PopHead(lane: seq<Request>, r: Request)
    requires lane != []
    ensures multiset(lane)[r] == multiset(lane[1..])[r] + if r == lane[0] then 1 else 0
  {
    assert lane == [lane[0]] + lane[1..];
  }

  lemma AdmitPlaces(s: State, i: nat, j: nat, wait: nat, r: Request)
    requires i < |s.slots| && j < |s.slots| && s.slots[j].lane != [] && Held(s.slots[i].pc) == {}
    ensures PlacesInSlots(Admit(s, i, j, wait).slots, r) == PlacesInSlots(s.slots, r)
  {
    var popped := s.slots[j := s.slots[j].(lane := s.slots[j].lane[1..])];
    PopHead(s.slots[j].lane, r);
    UpdatePlaces(s.slots, j, popped[j], r);
    UpdatePlaces(popped, i, Admit(s, i, j, wait).slots[i], r);
  }

  /** A program-counter step keeps what the slot holds and, under the slot invariant, that invariant. */
  lemma MovedSlot(s: State, i: nat, step: SlotStep)
    requires i < |s.slots| && CanMove(s, i, step)
    ensures var slot := Moved(s.slots[i], step, s.parkSeq);
      && slot.lane == s.slots[i].lane && Held(slot.pc) == Held(s.slots[i].pc)
      && slot.open == s.slots[i].open && slot.served == s.slots[i].served
      && (s.slots[i].pc.Crashed? ==> slot.pc == s.slots[i].pc)
      && (SlotOk(s.slots[i]) ==> SlotOk(slot))
  {
  }

  /** The slot gives up request `q`, which is settled. */
  lemma SettledPlaces(s: State, i: nat, slot: Slot, q: Request, r: Request)
    requires i < |s.slots| && slot.lane == s.slots[i].lane
    requires Held(s.slots[i].pc) == {q} && Held(slot.pc) == {} && Places(s, r) <= 1
    ensures Places(Settle(SetSlot(s, i, slot), q), r) == Places(s, r)
  {
    UpdatePlaces(s.slots, i, slot, r);
    PlaceOf(s.slots, i, r);
  }

  /** Actions that change the slot table's flags but no lane and no worker's hands. */
  predicate Housekeeping(a: Action) {
    a.Register? || a.Move? || a.Reset? || a.Close? || a.AbortStart?
  }

  lemma HousekeepingPlaces(s: State, a: Action, r: Request)
    requires Enabled(s, a) && Housekeeping(a)
    ensures Places(Apply(s, a), r) == Places(s, r) && Apply(s, a).arrived == s.arrived
  {
    var t := Apply(s, a);
    match a {
      case Register => AppendPlaces(s.slots, r);
      case Move(i, step) => MovedSlot(s, i, step); SameContents(s.slots, i, t.slots[i], r);
      case Reset(i) => SameContents(s.slots, i, t.slots[i], r);
      case Close(step) => if step.CloseNext? { SameContents(s.slots, s.closer.next, t.slots[s.closer.next], r); }
      case AbortStart(_, _) =>
    }
  }

  lemma SendPlaces(s: State, i: nat, sent: Request, r: Request)
    requires Enabled(s, Send(i, sent))
    ensures Places(Apply(s, Send(i, sent)), r) == Places(s, r)
  {
    UpdatePlaces(s.slots, i, Apply(s, Send(i, sent)).slots[i], r);
  }

  /** One action moves request `r` between places without losing or copying it. */
  lemma StepPlaces(s: State, a: Action, r: Request)
    requires Places(s, r) == (if r in s.arrived then 1 else 0) && Enabled(s, a)
    ensures Places(Apply(s, a), r) == if r in Apply(s, a).arrived then 1 else 0
  {
    if Housekeeping(a) {
      HousekeepingPlaces(s, a, r);
    } else {
      match a {
        case Arrive(_) =>
        case Send(i, sent) => SendPlaces(s, i, sent, r);
        case GiveUp(_) =>
        case Take(i, j, wait) => AdmitPlaces(s, i, j, wait, r);
        case Finish(i) => SettledPlaces(s, i, Apply(s, a).slots[i], s.slots[i].pc.request, r);
        case Collect(i) => SettledPlaces(s, i, Apply(s, a).slots[i], s.slots[i].pc.held.value, r);
        case Abort(b, step) => AbortPlaces(s, b, step, r);
      }
    }
  }

  lemma AbortPlaces(s: State, a: nat, step: AbortStep, r: Request)
    requires Places(s, r) == (if r in s.arrived then 1 else 0) && CanAbort(s, a, step)
    ensures Places(ApplyAbort(s, a, step), r) == Places(s, r)
  {
    var t := ApplyAbort(s, a, step);
    var i := s.aborters[a].slot;
    match step {
      case AnswerCurrent =>
      case TakeSender => SameContents(s.slots, i, t.slots[i], r);
      case DropHead => PopHead(s.slots[i].lane, r); UpdatePlaces(s.slots, i, t.slots[i], r); PlaceOf(s.slots, i, r);
      case SeeEmpty =>
    }
  }

  /** A request in a lane or in a worker's hands has arrived and is nowhere else. */
  lemma PlacedArrived(s: State, i: nat, r: Request)
    requires Conserved(s) && i < |s.slots| && (r in s.slots[i].lane || r in Held(s.slots[i].pc))
    ensures r in s.arrived && r !in s.hand && r !in s.done
  {
    PlaceOf(s.slots, i, r);
    assert Places(s, r) == if r in s.arrived then 1 else 0;
  }

  lemma StepConserved(s: State, a: Action)
    requires Conserved(s) && Enabled(s, a)
    ensures Conserved(Apply(s, a))
  {
    var t := Apply(s, a);
    forall r ensures Places(t, r) == if r in t.arrived then 1 else 0 {
      assert Places(s, r) == if r in s.arrived then 1 else 0;
      StepPlaces(s, a, r);
    }
    StepClaims(s, a);
  }

  lemma StepClaims(s: State, a: Action)
    requires Conserved(s) && Enabled(s, a)
    ensures Apply(s, a).done <= Apply(s, a).claimed <= Apply(s, a).arrived
  {
    match a {
      case GiveUp(r) => assert Places(s, r) == if r in s.arrived then 1 else 0;
      case Finish(i) => PlacedArrived(s, i, s.slots[i].pc.request);
      case Collect(i) => PlacedArrived(s, i, s.slots[i].pc.held.value);
      case Abort(b, step) =>
        var slot := s.slots[s.aborters[b].slot];
        forall r | r in Held(slot.pc) || r in slot.lane ensures r in s.arrived {
          PlacedArrived(s, s.aborters[b].slot, r);
        }
      case _ =>
    }
  }

  lemma StepSlots(s: State, a: Action)
    requires SlotsOk(s) && Enabled(s, a)
    ensures SlotsOk(Apply(s, a))
  {
    match a {
      case Move(i, step) => MovedSlot(s, i, step);
      case _ =>
    }
  }

  lemma StepCloser(s: State, a: Action)
    requires CloserOk(s) && Enabled(s, a)
    ensures CloserOk(Apply(s, a))
  {
    forall i | 0 <= i < |s.slots| && !s.slots[i].open ensures !Apply(s, a).slots[i].open {
      ClosedStays(s, a, i);
    }
  }

  /** A crashed worker stays crashed and takes no new request in hand; claims are for good. */
  lemma CrashedStays(s: State, a: Action, i: nat)
    requires Enabled(s, a) && i < |s.slots|
    ensures s.claimed <= Apply(s, a).claimed && i < |Apply(s, a).slots|
    ensures s.slots[i].pc.Crashed? ==>
              Apply(s, a).slots[i].pc.Crashed? && Held(Apply(s, a).slots[i].pc) <= Held(s.slots[i].pc)
  {
    match a {
      case Move(k, step) => MovedSlot(s, k, step);
      case _ =>
    }
  }

  lemma AbortAborter(s: State, b: nat, step: AbortStep)
    requires CanAbort(s, b, step) && AborterOk(s, s.aborters[b])
    ensures b in ApplyAbort(s, b, step).aborters
    ensures AborterOk(ApplyAbort(s, b, step), ApplyAbort(s, b, step).aborters[b])
  {
  }

  lemma StepAborter(s: State, a: Action, b: nat)
    requires AbortersOk(s) && Enabled(s, a) && b in Apply(s, a).aborters
    ensures AborterOk(Apply(s, a), Apply(s, a).aborters[b])
  {
    if a.Abort? && a.a == b {
      AbortAborter(s, b, a.abort);
    } else if !a.AbortStart? || a.a != b {
      var i := s.aborters[b].slot;
      assert AborterOk(s, s.aborters[b]);
      CrashedStays(s, a, i);
      if !s.slots[i].open {
        ClosedStays(s, a, i);
      }
    }
  }

  /** Closed lanes stay closed and keep their place in the table; empty ones among them stay empty. */
  lemma ClosedStays(s: State, a: Action, i: nat)
    requires Enabled(s, a) && i < |s.slots| && !s.slots[i].open
    ensures i < |Apply(s, a).slots| && !Apply(s, a).slots[i].open
    ensures s.slots[i].lane == [] ==> Apply(s, a).slots[i].lane == []
  {
    match a {
      case Move(k, step) => MovedSlot(s, k, step);
      case _ =>
    }
  }

  lemma AdmitCounts(s: State, i: nat, j: nat, wait: nat)
    requires i < |s.slots| && j < |s.slots| && s.slots[j].lane != []
    ensures Queued(Admit(s, i, j, wait).slots) == Queued(s.slots) - 1
    ensures SlotServed(Admit(s, i, j, wait).slots) == SlotServed(s.slots) + 1
  {
    var popped := s.slots[j := s.slots[j].(lane := s.slots[j].lane[1..])];
    UpdateCounts(s.slots, j, popped[j]);
    UpdateCounts(popped, i, Admit(s, i, j, wait).slots[i]);
  }

  lemma WorkerCounters(s: State, a: Action)
    requires CountersOk(s) && Enabled(s, a) && (a.Move? || a.Take? || a.Finish? || a.Collect?)
    ensures CountersOk(Apply(s, a))
  {
    var t := Apply(s, a);
    match a {
      case Move(i, step) => MovedSlot(s, i, step); UpdateCounts(s.slots, i, t.slots[i]);
      case Take(i, j, wait) => AdmitCounts(s, i, j, wait);
      case Finish(i) => UpdateCounts(s.slots, i, t.slots[i]);
      case Collect(i) => UpdateCounts(s.slots, i, t.slots[i]);
    }
  }

  lemma OwnerCounters(s: State, a: Action)
    requires CountersOk(s) && Enabled(s, a) && (a.Register? || a.Reset? || a.Close?)
    ensures CountersOk(Apply(s, a))
  {
    var t := Apply(s, a);
    match a {
      case Register => AppendCounts(s.slots);
      case Reset(i) => UpdateCounts(s.slots, i, t.slots[i]);
      case Close(step) => if step.CloseNext? { UpdateCounts(s.slots, s.closer.next, t.slots[s.closer.next]); }
    }
  }

  lemma StepCounters(s: State, a: Action)
    requires CountersOk(s) && Enabled(s, a)
    ensures CountersOk(Apply(s, a))
  {
    if a.Move? || a.Take? || a.Finish? || a.Collect? {
      WorkerCounters(s, a);
    } else if a.Register? || a.Reset? || a.Close? {
      OwnerCounters(s, a);
    } else if a.Send? {
      UpdateCounts(s.slots, a.i, Apply(s, a).slots[a.i]);
    } else if a.Abort? {
      UpdateCounts(s.slots, s.aborters[a.a].slot, Apply(s, a).slots[s.aborters[a.a].slot]);
    }
  }

  lemma StepKeepsInv(s: State, a: Action)
    requires Inv(s) && Enabled(s, a)
    ensures Inv(Apply(s, a))
  {
    StepConserved(s, a);
    StepSlots(s, a);
    StepCloser(s, a);
    StepCounters(s, a);
    forall b | b in Apply(s, a).aborters ensures AborterOk(Apply(s, a), Apply(s, a).aborters[b]) {
      StepAborter(s, a, b);
    }
  }

  /** Conservation, bounded lanes and exact counters in every state of every run. */
  lemma {:induction false} RunKeepsInv(s: State, run: seq<Action>)
    requires Inv(s) && Legal(s, run)
    ensures Inv(Exec(s, run))
    decreases |run|
  {
    if run != [] {
      StepKeepsInv(s, run[0]);
      RunKeepsInv(Apply(s, run[0]), run[1..]);
    }
  }

  /** `s` is the state after a run of the system from its start. */
  ghost predicate Reached(s: State, run: seq<Action>) {
    Legal(InitialState(), run) && s == Exec(InitialState(), run)
  }

  lemma ReachedInv(s: State, run: seq<Action>)
    requires Reached(s, run)
    ensures Inv(s)
  {
    var start := InitialState();
    assert Inv(start);
    RunKeepsInv(start, run);
  }

  /** In every interleaving: a request that arrived sits in exactly one of a dispatcher's hand, one
      lane, one worker's hands, or the dropped ones with a claimed responder; lanes are bounded; the
      counters balance. */
  lemma EveryRun(s: State, run: seq<Action>)
    requires Reached(s, run)
    ensures forall r :: Places(s, r) == if r in s.arrived then 1 else 0
    ensures s.done <= s.claimed
    ensures forall i :: 0 <= i < |s.slots| ==> |s.slots[i].lane| <= LANE_DEPTH
    ensures s.enqueued == s.served + Queued(s.slots) + s.drained
    ensures s.served == |s.waits| == SlotServed(s.slots) + s.discarded
  {
    ReachedInv(s, run);
  }

  /** From a retired worker's exit until its slot is reset, its lane is and stays empty: the retired
      check and the send share the lane lock with `retire`. */
  lemma {:induction false} RetiredLaneStaysEmpty(s: State, run: seq<Action>, i: nat)
    requires Inv(s) && Legal(s, run) && i < |s.slots| && s.slots[i].pc == Left(Retired)
    requires Reset(i) !in run
    ensures var t := Exec(s, run); i < |t.slots| && t.slots[i].pc == Left(Retired) && t.slots[i].lane == []
    decreases |run|
  {
    if run != [] {
      var t := Apply(s, run[0]);
      StepKeepsInv(s, run[0]);
      LeftStays(s, run[0], i);
      RetiredLaneStaysEmpty(t, run[1..], i);
    }
  }

  lemma LeftStays(s: State, a: Action, i: nat)
    requires Enabled(s, a) && i < |s.slots| && s.slots[i].pc.Left? && a != Reset(i)
    ensures i < |Apply(s, a).slots| && Apply(s, a).slots[i].pc == s.slots[i].pc
  {
  }

  /** The worker of slot `i` is gone for a reason other than an interrupt: nil from a closed lane, nil
      as retired, or a crash whose `abort_slot` call has returned. */
  predicate Gone(s: State, i: nat)
    requires i < |s.slots|
  {
    || s.slots[i].pc == Left(Closed)
    || s.slots[i].pc == Left(Retired)
    || (exists a :: a in s.aborters && s.aborters[a] == Aborter(i, Finished, true))
  }

  /** Closed and empty: no later action of any kind puts a request there. */
  lemma {:induction false} SealedForGood(s: State, run: seq<Action>, i: nat)
    requires Legal(s, run) && i < |s.slots| && !s.slots[i].open && s.slots[i].lane == []
    ensures var t := Exec(s, run); i < |t.slots| && !t.slots[i].open && t.slots[i].lane == []
    decreases |run|
  {
    if run != [] {
      ClosedStays(s, run[0], i);
      SealedForGood(Apply(s, run[0]), run[1..], i);
    }
  }

  /** After `close_queue`, a slot registered by then whose worker is gone has an empty lane, for good. */
  lemma GoneLeavesNothing(s: State, before: seq<Action>, after: seq<Action>, i: nat)
    requires Reached(s, before) && Legal(s, after)
    requires s.closer.AllClosed? && i < s.closer.upto && i < |s.slots| && Gone(s, i)
    ensures i < |Exec(s, after).slots| && Exec(s, after).slots[i].lane == []
  {
    ReachedInv(s, before);
    SealedForGood(s, after, i);
  }

  /** What a worker that is gone still held is claimed. */
  lemma GoneClaimed(s: State, i: nat, r: Request)
    requires Inv(s) && s.closer.AllClosed? && i < s.closer.upto && i < |s.slots| && Gone(s, i)
    requires r in s.slots[i].lane || r in Held(s.slots[i].pc)
    ensures r in s.claimed
  {
  }

  /** Once every worker registered by `close_queue` is gone, no request remains in any of their lanes, now or
      later, and every request is in a dispatcher's hand, claimed, or with a slot registered since. */
  lemma DrainedAfterClose(s: State, run: seq<Action>)
    requires Reached(s, run) && s.closer.AllClosed?
    requires forall i :: 0 <= i < s.closer.upto ==> i < |s.slots| && Gone(s, i)
    ensures s.closer.upto <= |s.slots| && Queued(s.slots[..s.closer.upto]) == 0
    ensures forall r :: r in s.arrived ==>
            r in s.hand || r in s.claimed || PlacesInSlots(s.slots[s.closer.upto..], r) > 0
    ensures s.closer.upto == |s.slots| ==> s.arrived == s.hand + s.claimed
  {
    ReachedInv(s, run);
    var n := s.closer.upto;
    forall i | 0 <= i < n ensures s.slots[i].lane == [] {
      assert Gone(s, i);
    }
    NothingQueued(s.slots[..n]);
    forall r | r in s.arrived && r !in s.hand && r !in s.claimed ensures PlacesInSlots(s.slots[n..], r) > 0 {
      assert Places(s, r) == 1;
      var i := Whereabouts(s.slots, r);
      if i < n {
        GoneClaimed(s, i, r);
      } else {
        PlaceOf(s.slots[n..], i - n, r);
      }
    }
    forall r | r in s.hand ensures r in s.arrived {
      assert Places(s, r) == if r in s.arrived then 1 else 0;
    }
  }

  lemma {:induction false} NothingQueued(slots: seq<Slot>)
    requires forall i :: 0 <= i < |slots| ==> slots[i].lane == []
    ensures Queued(slots) == 0
  {
    if slots != [] {
      NothingQueued(slots[1..]);
    }
  }

  /** A request placed somewhere in the slot table has a slot. */
  lemma {:induction false} Whereabouts(slots: seq<Slot>, r: Request) returns (i: nat)
    requires PlacesInSlots(slots, r) > 0
    ensures i < |slots| && (r in slots[i].lane || r in Held(slots[i].pc))
  {
    if PlacesInSlot(slots[0], r) > 0 {
      i := 0;
    } else {
      i := Whereabouts(slots[1..], r);
      i := i + 1;
    }
  }
}
