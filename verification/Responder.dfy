/** Who answers the client. The app, the crash supervisor and the request's Drop race for one
    `responded` flag; each of their calls is broken down to its atomic operations. */
module Responder {
  import opened Options

  type Pid = nat
  type Head = nat

  const CANNED_500: Head := 500

  /** A call on the responder. Abort, the supervisor and Drop all make the backstop call. */
  datatype Kind =
    | Respond(head: Head)
    | StreamHead(head: Head, valid: bool)   // an invalid head fails after the claim
    | Backstop

  datatype Pc =
    | Begin        // before the swap on `responded`
    | Won          // swapped false to true, head sender not taken yet
    | Holding      // has the head sender
    | Published    // streaming: frame sender stored, head not sent yet
    | Lost         // swapped true to true
    | Done

  datatype Call = Call(kind: Kind, pc: Pc)

  /** The oneshot sender of the response head. */
  datatype Sender = InResponder | Taken(holder: Pid) | Sent(head: Head) | Dropped

  datatype Answer = FromHead(head: Head) | Unanswered500 | Timeout504

  /** The intake task that awaits the head. */
  datatype Intake = Waiting | Answered(answer: Answer)

  datatype State = State(
    responded: bool,
    sender: Sender,
    streamOpen: bool,
    calls: map<Pid, Call>,
    winner: Option<Pid>,      // the first to swap
    heads: seq<Head>,         // every head ever sent
    intake: Intake)

  datatype Action =
    | Start(p: Pid, kind: Kind)
    | Swap(p: Pid)
    | TakeSender(p: Pid)
    | Publish(p: Pid)
    | SendHead(p: Pid)
    | LoseOut(p: Pid)
    | FinishStream
    | Receive
    | Deadline

  function Fresh(): State {
    State(false, InResponder, false, map[], None, [], Waiting)
  }

  predicate At(s: State, p: Pid, pc: Pc) {
    p in s.calls && s.calls[p].pc == pc
  }

  function HeadOf(kind: Kind): Head {
    match kind
    case Respond(head) => head
    case StreamHead(head, _) => head
    case Backstop => CANNED_500
  }

  predicate Enabled(s: State, a: Action) {
    match a
    case Start(p, _) => p !in s.calls
    case Swap(p) => At(s, p, Begin)
    case TakeSender(p) => At(s, p, Won)
    case Publish(p) => At(s, p, Holding) && s.calls[p].kind.StreamHead?
    case SendHead(p) => At(s, p, Published) || (At(s, p, Holding) && !s.calls[p].kind.StreamHead?)
    case LoseOut(p) => At(s, p, Lost)
    case FinishStream => true
    case Receive => s.intake.Waiting? && (s.sender.Sent? || s.sender.Dropped?)
    case Deadline => s.intake.Waiting?
  }

  function SetPc(s: State, p: Pid, pc: Pc): State
    requires p in s.calls
  {
    s.(calls := s.calls[p := s.calls[p].(pc := pc)])
  }

  function Apply(s: State, a: Action): State
    requires Enabled(s, a)
  {
    match a
    case Start(p, kind) => s.(calls := s.calls[p := Call(kind, Begin)])
    case Swap(p) =>
      if s.responded then SetPc(s, p, Lost)
      else SetPc(s, p, Won).(responded := true, winner := Some(p))
    case TakeSender(p) =>
      if s.sender.InResponder? then SetPc(s, p, Holding).(sender := Taken(p)) else SetPc(s, p, Lost)
    case Publish(p) =>
      if s.calls[p].kind.valid then SetPc(s, p, Published).(streamOpen := true)
      else SetPc(s, p, Done).(sender := Dropped)
    case SendHead(p) =>
      var head := HeadOf(s.calls[p].kind);
      SetPc(s, p, Done).(sender := Sent(head), heads := s.heads + [head])
    case LoseOut(p) =>
      SetPc(s, p, Done).(streamOpen := if s.calls[p].kind.Backstop? then false else s.streamOpen)
    case FinishStream => s.(streamOpen := false)
    case Receive =>
      s.(intake := Answered(if s.sender.Sent? then FromHead(s.sender.head) else Unanswered500))
    case Deadline => s.(intake := Answered(Timeout504))
  }

  predicate Legal(s: State, run: seq<Action>)
    decreases |run|
  {
    run == [] || (Enabled(s, run[0]) && Legal(Apply(s, run[0]), run[1..]))
  }

  function Exec(s: State, run: seq<Action>): State
    requires Legal(s, run)
    decreases |run|
  {
    if run == [] then s else Exec(Apply(s, run[0]), run[1..])
  }

  // ----- what every interleaving keeps

  predicate CallOk(s: State, p: Pid)
    requires p in s.calls
  {
    var call := s.calls[p];
    match call.pc
    case Begin => s.winner != Some(p)
    case Won => s.winner == Some(p) && s.sender == InResponder
    case Holding => s.winner == Some(p) && s.sender == Taken(p)
    case Published => s.winner == Some(p) && s.sender == Taken(p) && call.kind.StreamHead? && call.kind.valid
    case Lost => s.responded && s.winner != Some(p)
    case Done => s.responded && (s.winner == Some(p) ==> s.sender.Sent? || s.sender.Dropped?)
  }

  predicate CallsOk(s: State) {
    forall p :: p in s.calls ==> CallOk(s, p)
  }

  predicate SenderOk(s: State) {
    && (s.winner.Some? <==> s.responded)
    && (s.winner.Some? ==> s.winner.value in s.calls)
    && (s.winner.None? ==> s.sender == InResponder && !s.streamOpen)
    && (s.sender.Taken? ==> s.winner == Some(s.sender.holder))
    && (s.sender.InResponder? && s.winner.Some? ==> s.calls[s.winner.value].pc.Won?)
    && s.heads == (if s.sender.Sent? then [s.sender.head] else [])
    && (s.sender.Sent? ==> s.winner.Some? && s.sender.head == HeadOf(s.calls[s.winner.value].kind))
    && (s.sender.Sent? && s.calls[s.winner.value].kind.StreamHead? ==> s.calls[s.winner.value].kind.valid)
    && (s.sender.Dropped? ==>
          s.winner.Some? && s.calls[s.winner.value].kind.StreamHead? && !s.calls[s.winner.value].kind.valid)
  }

  predicate IntakeOk(s: State) {
    match s.intake
    case Waiting => true
    case Answered(FromHead(head)) => s.sender == Sent(head)
    case Answered(Unanswered500) => s.sender.Dropped?
    case Answered(Timeout504) => true
  }

  predicate Inv(s: State) {
    CallsOk(s) && SenderOk(s) && IntakeOk(s)
  }

  lemma StepCall(s: State, a: Action, p: Pid)
    requires CallsOk(s) && SenderOk(s) && Enabled(s, a) && p in Apply(s, a).calls
    ensures CallOk(Apply(s, a), p)
  {
    assert p in s.calls ==> CallOk(s, p);
  }

  lemma StepKeepsInv(s: State, a: Action)
    requires Inv(s) && Enabled(s, a)
    ensures Inv(Apply(s, a))
  {
    forall p | p in Apply(s, a).calls ensures CallOk(Apply(s, a), p) {
      StepCall(s, a, p);
    }
    match a {
      case Swap(p) => assert CallOk(s, p);
      case TakeSender(p) => assert CallOk(s, p);
      case Publish(p) => assert CallOk(s, p);
      case SendHead(p) => assert CallOk(s, p);
      case LoseOut(p) => assert CallOk(s, p);
      case _ =>
    }
  }

  lemma {:induction false} RunKeepsInv(s: State, run: seq<Action>)
    requires Inv(s) && Legal(s, run)
    ensures Inv(Exec(s, run))
    decreases |run|
  {
    if run != [] {
      StepKeepsInv(s, run[0]);
      RunKeepsInv(Apply(s, run[0]), run[1..]);
    }
  }

  /** Who swapped first in the run. */
  function FirstSwap(run: seq<Action>): Option<Pid> {
    if run == [] then None else if run[0].Swap? then Some(run[0].p) else FirstSwap(run[1..])
  }

  /** What kind of call `p` is, by its start in the run. */
  function StartedAs(run: seq<Action>, p: Pid): Option<Kind> {
    if run == [] then None else if run[0].Start? && run[0].p == p then Some(run[0].kind) else StartedAs(run[1..], p)
  }

  lemma {:induction false} WinnerIsFirst(s: State, run: seq<Action>)
    requires Inv(s) && Legal(s, run)
    ensures Exec(s, run).winner == if s.winner.Some? then s.winner else FirstSwap(run)
    decreases |run|
  {
    if run != [] {
      StepKeepsInv(s, run[0]);
      WinnerIsFirst(Apply(s, run[0]), run[1..]);
    }
  }

  lemma {:induction false} KindIsGiven(s: State, run: seq<Action>, p: Pid)
    requires Legal(s, run)
    ensures p in s.calls ==> p in Exec(s, run).calls && Exec(s, run).calls[p].kind == s.calls[p].kind
    ensures p !in s.calls ==> (p in Exec(s, run).calls <==> StartedAs(run, p).Some?)
    ensures p !in s.calls && StartedAs(run, p).Some? ==> Exec(s, run).calls[p].kind == StartedAs(run, p).value
    decreases |run|
  {
    if run != [] {
      KindIsGiven(Apply(s, run[0]), run[1..], p);
    }
  }

  /** The heads that may be out when a call of this kind won: its own, the canned 500 for a backstop, and none for
      one whose headers do not build. */
  predicate MaySend(kind: Kind, heads: seq<Head>) {
    heads == [] ||
    match kind
    case Respond(head) => heads == [head]
    case StreamHead(head, valid) => valid && heads == [head]
    case Backstop => heads == [500]
  }

  /** Across all interleavings of app, supervisor abort and Drop at most one head is sent. It is what the caller
      that swapped first was started with (the canned 500 if that is a backstop), and a client answered from a head
      gets that one. */
  lemma AtMostOneHead(run: seq<Action>, s: State)
    requires Legal(Fresh(), run) && s == Exec(Fresh(), run)
    ensures |s.heads| <= 1
    ensures s.winner == FirstSwap(run)
    ensures s.heads != [] ==> FirstSwap(run).Some? && StartedAs(run, FirstSwap(run).value).Some?
    ensures FirstSwap(run).Some? && StartedAs(run, FirstSwap(run).value).Some? ==>
              MaySend(StartedAs(run, FirstSwap(run).value).value, s.heads)
    ensures s.intake.Answered? && s.intake.answer.FromHead? ==> s.heads == [s.intake.answer.head]
    ensures s.intake.Answered? && s.intake.answer.Unanswered500? ==> s.heads == []
  {
    RunKeepsInv(Fresh(), run);
    WinnerIsFirst(Fresh(), run);
    if s.winner.Some? {
      KindIsGiven(Fresh(), run, s.winner.value);
    }
  }

  /** What settled the client's answer: the first deadline or receipt of the run. */
  function FirstAnswer(run: seq<Action>): Option<Action> {
    if run == [] then None else if run[0].Receive? || run[0].Deadline? then Some(run[0]) else FirstAnswer(run[1..])
  }

  lemma {:induction false} AnsweredByFirst(s: State, run: seq<Action>)
    requires Inv(s) && Legal(s, run) && s.intake.Waiting?
    ensures Exec(s, run).intake.Waiting? <==> FirstAnswer(run).None?
    ensures FirstAnswer(run) == Some(Deadline) ==> Exec(s, run).intake == Answered(Timeout504)
    ensures FirstAnswer(run) == Some(Receive) ==>
              Exec(s, run).intake.Answered? && !Exec(s, run).intake.answer.Timeout504?
    decreases |run|
  {
    if run != [] {
      StepKeepsInv(s, run[0]);
      var t := Apply(s, run[0]);
      if t.intake.Waiting? {
        AnsweredByFirst(t, run[1..]);
      } else {
        AnswerIsFinal(t, run[1..]);
      }
    }
  }

  /** The client's answer: a timeout exactly if the deadline came first; otherwise the head that was sent, or a 500
      in its place if the sender was dropped without one. */
  lemma AnswerIsRight(run: seq<Action>, s: State)
    requires Legal(Fresh(), run) && s == Exec(Fresh(), run)
    ensures FirstAnswer(run).None? ==> s.intake.Waiting?
    ensures FirstAnswer(run) == Some(Deadline) ==> s.intake == Answered(Timeout504)
    ensures FirstAnswer(run) == Some(Receive) ==>
              s.intake == Answered(if s.heads == [] then Unanswered500 else FromHead(s.heads[0]))
  {
    RunKeepsInv(Fresh(), run);
    AnsweredByFirst(Fresh(), run);
  }

  /** What a call under way does next. */
  function NextOf(s: State, p: Pid): Action
    requires p in s.calls && !s.calls[p].pc.Done?
  {
    match s.calls[p].pc
    case Begin => Swap(p)
    case Won => TakeSender(p)
    case Holding => if s.calls[p].kind.StreamHead? then Publish(p) else SendHead(p)
    case Published => SendHead(p)
    case Lost => LoseOut(p)
  }

  function StepsLeft(call: Call): nat {
    match call.pc
    case Begin => 4
    case Won => 3
    case Holding => 2
    case Published => 1
    case Lost => 1
    case Done => 0
  }

  /** No call is ever stuck: in every reachable state each call under way has a next step, after which it has fewer
      to go; and once the winner is through, its head is out, unless its headers did not build. */
  lemma NoCallIsStuck(run: seq<Action>, s: State, p: Pid)
    requires Legal(Fresh(), run) && s == Exec(Fresh(), run) && p in s.calls
    ensures !s.calls[p].pc.Done? ==>
              Enabled(s, NextOf(s, p)) && StepsLeft(Apply(s, NextOf(s, p)).calls[p]) < StepsLeft(s.calls[p])
    ensures s.calls[p].pc.Done? && s.winner == Some(p) ==>
              |s.heads| == 1 || (s.calls[p].kind.StreamHead? && !s.calls[p].kind.valid)
  {
    RunKeepsInv(Fresh(), run);
    assert CallOk(s, p);
  }

  /** No call is in the middle. */
  predicate Quiet(s: State) {
    forall p :: p in s.calls ==> s.calls[p].pc.Done?
  }

  /** The winner has not finished: it still holds the sender, or is about to take it. */
  predicate WinnerBusy(s: State) {
    && s.winner.Some? && s.winner.value in s.calls
    && match s.calls[s.winner.value].pc
       case Won => s.sender.InResponder?
       case Holding => s.sender == Taken(s.winner.value)
       case Published => s.sender == Taken(s.winner.value)
       case _ => false
  }

  /** Once the request is dropped (its backstop call is done) the head sender is used up, unless the first
      claimant is still in the middle of its call. With no call under way the client has its answer or the
      intake is about to receive it: a head, or a dropped sender. */
  lemma DropAnswersTheClient(run: seq<Action>, s: State, drop: Pid)
    requires Legal(Fresh(), run) && s == Exec(Fresh(), run)
    requires drop in s.calls && s.calls[drop].kind.Backstop? && s.calls[drop].pc.Done?
    ensures s.sender.Sent? || s.sender.Dropped? <==> !WinnerBusy(s)
    ensures !WinnerBusy(s) ==> s.intake.Answered? || Enabled(s, Receive)
    ensures Quiet(s) ==> !WinnerBusy(s)
  {
    RunKeepsInv(Fresh(), run);
    assert CallOk(s, drop);
    assert CallOk(s, s.winner.value);
  }

  /** An answer is final. */
  lemma {:induction false} AnswerIsFinal(s: State, run: seq<Action>)
    requires Legal(s, run) && s.intake.Answered?
    ensures Exec(s, run).intake == s.intake
    decreases |run|
  {
    if run != [] {
      AnswerIsFinal(Apply(s, run[0]), run[1..]);
    }
  }

  // ----- whether an abort closes the stream

  ghost predicate ClosedForGood(s: State) {
    forall run: seq<Action> :: Legal(s, run) ==> !Exec(s, run).streamOpen
  }

  /** The first claimant is a streaming call that has yet to publish its frame sender. */
  predicate WillPublish(s: State) {
    && s.winner.Some? && s.winner.value in s.calls
    && var call := s.calls[s.winner.value];
       call.kind.StreamHead? && call.kind.valid && (call.pc.Won? || call.pc.Holding?)
  }

  predicate Closing(s: State) {
    Inv(s) && s.responded && !s.streamOpen && !WillPublish(s)
  }

  lemma ClosingStays(s: State, a: Action)
    requires Closing(s) && Enabled(s, a)
    ensures Closing(Apply(s, a))
  {
    StepKeepsInv(s, a);
    match a {
      case Publish(p) => assert CallOk(s, p);
      case TakeSender(p) => assert CallOk(s, p);
      case _ =>
    }
  }

  lemma {:induction false} ClosingForGood(s: State, run: seq<Action>)
    requires Closing(s) && Legal(s, run)
    ensures !Exec(s, run).streamOpen
    decreases |run|
  {
    if run != [] {
      ClosingStays(s, run[0]);
      ClosingForGood(Apply(s, run[0]), run[1..]);
    }
  }

  /** The steps by which such a claimant publishes. */
  function Publishing(s: State): seq<Action>
    requires WillPublish(s)
  {
    var w := s.winner.value;
    if s.calls[w].pc.Won? then [TakeSender(w), Publish(w)] else [Publish(w)]
  }

  lemma PublishingOpens(s: State)
    requires Inv(s) && WillPublish(s)
    ensures Legal(s, Publishing(s)) && Exec(s, Publishing(s)).streamOpen
  {
    var w, run := s.winner.value, Publishing(s);
    assert CallOk(s, w);
    if s.calls[w].pc.Won? {
      var t := Apply(s, run[0]);
      assert run[1..] == [Publish(w)] && run[1..][1..] == [];
      Chain(t, run[1..], Apply(t, Publish(w)));
      Chain(s, run, Apply(t, Publish(w)));
    } else {
      assert run[1..] == [];
      Chain(s, run, Apply(s, Publish(w)));
    }
  }

  /** An abort that lost the claim closes the stream for good, whatever happens after it, exactly if the first
      claimant is not a streaming call that has yet to publish its frame sender. */
  lemma AbortClosesExactly(run: seq<Action>, s: State, abort: Pid)
    requires Legal(Fresh(), run) && s == Exec(Fresh(), run)
    requires At(s, abort, Lost) && s.calls[abort].kind.Backstop?
    ensures ClosedForGood(Apply(s, LoseOut(abort))) <==> !WillPublish(s)
  {
    RunKeepsInv(Fresh(), run);
    var t := Apply(s, LoseOut(abort));
    StepKeepsInv(s, LoseOut(abort));
    assert CallOk(s, abort);
    assert WillPublish(t) <==> WillPublish(s);
    if WillPublish(s) {
      PublishingOpens(t);
    } else {
      forall more: seq<Action> | Legal(t, more) ensures !Exec(t, more).streamOpen {
        ClosingForGood(t, more);
      }
    }
  }

  /** Whether the stream is open after the run: a publication of a valid head opens it, the app's finish and an abort
      that lost the claim close it. */
  function OpenAfter(s: State, run: seq<Action>, before: bool): bool
    requires Legal(s, run)
    decreases |run|
  {
    if run == [] then before
    else
      OpenAfter(Apply(s, run[0]), run[1..],
                match run[0]
                case Publish(p) => before || s.calls[p].kind.valid
                case LoseOut(p) => before && !s.calls[p].kind.Backstop?
                case FinishStream => false
                case _ => before)
  }

  /** Nothing else does: a response that lost the claim leaves the winner's stream alone. */
  lemma {:induction false} StreamOpenExactly(s: State, run: seq<Action>)
    requires Legal(s, run)
    ensures Exec(s, run).streamOpen == OpenAfter(s, run, s.streamOpen)
    decreases |run|
  {
    if run != [] {
      StreamOpenExactly(Apply(s, run[0]), run[1..]);
    }
  }

  /** And `finish_stream`, once somebody has claimed the request, under the same condition. */
  lemma FinishClosesExactly(run: seq<Action>, s: State)
    requires Legal(Fresh(), run) && s == Exec(Fresh(), run) && s.responded
    ensures ClosedForGood(Apply(s, FinishStream)) <==> !WillPublish(s)
  {
    RunKeepsInv(Fresh(), run);
    var t := Apply(s, FinishStream);
    StepKeepsInv(s, FinishStream);
    if WillPublish(s) {
      PublishingOpens(t);
    } else {
      forall more: seq<Action> | Legal(t, more) ensures !Exec(t, more).streamOpen {
        ClosingForGood(t, more);
      }
    }
  }

  /** The app claims a streaming head and takes the sender; the supervisor's abort comes too late to claim ... */
  function LateAbort(head: Head): seq<Action> {
    [Start(0, StreamHead(head, true)), Swap(0), TakeSender(0), Start(1, Backstop), Swap(1)]
  }

  /** ... and too early to find a frame sender. */
  function ThenPublish(): seq<Action> {
    [LoseOut(1), Publish(0), SendHead(0)]
  }

  function TooEarly(head: Head): State {
    State(true, Taken(0), false, map[0 := Call(StreamHead(head, true), Holding), 1 := Call(Backstop, Lost)], Some(0),
        [],
          Waiting)
  }

  lemma LateAbortRuns(head: Head)
    ensures Legal(Fresh(), LateAbort(head)) && Exec(Fresh(), LateAbort(head)) == TooEarly(head)
  {
    var run := LateAbort(head);
    var s1 := Apply(Fresh(), run[0]);
    var s2 := Apply(s1, run[1]);
    var s3 := Apply(s2, run[2]);
    var s4 := Apply(s3, run[3]);
    assert Apply(s4, run[4]).calls == TooEarly(head).calls;
    Chain(s4, run[4..], TooEarly(head));
    Chain(s3, run[3..], TooEarly(head));
    Chain(s2, run[2..], TooEarly(head));
    Chain(s1, run[1..], TooEarly(head));
    Chain(Fresh(), run, TooEarly(head));
  }

  lemma ThenPublishRuns(head: Head)
    ensures Legal(TooEarly(head), ThenPublish())
    ensures var s := Exec(TooEarly(head), ThenPublish()); s.streamOpen && At(s, 1, Done)
  {
    var run, s := ThenPublish(), TooEarly(head);
    var s1 := Apply(s, run[0]);
    var s2 := Apply(s1, run[1]);
    var s3 := Apply(s2, run[2]);
    Chain(s2, run[2..], s3);
    Chain(s1, run[1..], s3);
    Chain(s, run, s3);
  }

  /** The exact condition is met by a reachable state: there the abort closes nothing, and the stream is open
      behind it once the head is out. */
  lemma AbortBeforePublication(head: Head)
    ensures Legal(Fresh(), LateAbort(head)) && Exec(Fresh(), LateAbort(head)) == TooEarly(head)
    ensures WillPublish(TooEarly(head)) && !ClosedForGood(Apply(TooEarly(head), LoseOut(1)))
    ensures Legal(Fresh(), LateAbort(head) + ThenPublish())
    ensures var s := Exec(Fresh(), LateAbort(head) + ThenPublish()); s.streamOpen && At(s, 1, Done)
  {
    LateAbortRuns(head);
    AbortClosesExactly(LateAbort(head), TooEarly(head), 1);
    ThenPublishRuns(head);
    Joined(Fresh(), LateAbort(head), ThenPublish());
  }

  /** One run after another. */
  lemma {:induction false} Joined(s: State, first: seq<Action>, second: seq<Action>)
    requires Legal(s, first) && Legal(Exec(s, first), second)
    ensures Legal(s, first + second) && Exec(s, first + second) == Exec(Exec(s, first), second)
    decreases |first|
  {
    if first == [] {
      assert first + second == second;
    } else {
      assert (first + second)[1..] == first[1..] + second;
      Joined(Apply(s, first[0]), first[1..], second);
    }
  }

  lemma Chain(s: State, run: seq<Action>, end: State)
    requires run != [] && Enabled(s, run[0])
    requires Legal(Apply(s, run[0]), run[1..]) && Exec(Apply(s, run[0]), run[1..]) == end
    ensures Legal(s, run) && Exec(s, run) == end
  {
  }
}
