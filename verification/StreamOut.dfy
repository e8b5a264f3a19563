/** A streamed response with an enumerable body: the app's chunks through `write_chunk`'s retry loop and
    the bounded frame channel to the client, with a supervisor abort possible at any moment. */
module StreamOut {

  type Chunk = seq<nat>

  const STREAM_BUFFER: nat := 8

  datatype Item = Frame(chunk: Chunk) | Error

  /** The worker inside `deliver_streaming`. */
  datatype Writer =
    | Between                    // in `each`, no write under way
    | Blocked(chunk: Chunk)      // in write_chunk, holding a clone of the sender and the unsent frame
    | Raising                    // an exception is on its way to serve()'s rescue
    | Cutting                    // the rescue holds the taken sender and sends the error frame
    | Finished                   // finish ran
    | Rescued

  datatype Supervisor = Away | SupCutting | Gone

  datatype State = State(
    chunks: seq<Chunk>,       // what `each` yields
    completes: bool,          // and whether it then returns, or raises
    next: nat,                // chunks handed to write_chunk so far
    writer: Writer,
    bodyTx: bool,             // the responder still owns the frame sender
    supervisor: Supervisor,
    channel: seq<Item>,
    seen: seq<Item>,          // what hyper has taken off the channel
    clientGone: bool)

  datatype Action =
    | Write          // each yields the next chunk
    | SendOk         // send_timeout delivered the frame
    | SendTimeout    // channel full for a whole tick: the frame comes back and is kept
    | SendVoid       // client gone: the frame is dropped
    | Interrupt
    | EachEnds
    | Rescue
    | CutSent
    | Abort          // abort_inflight by the supervisor
    | SupSent
    | Consume
    | ClientLeaves

  /** Just after `send_headers`. */
  function Start(chunks: seq<Chunk>, completes: bool): State {
    State(chunks, completes, 0, Between, true, Away, [], [], false)
  }

  predicate Room(s: State) {
    |s.channel| < STREAM_BUFFER
  }

  predicate Enabled(s: State, a: Action) {
    match a
    case Write => s.writer.Between? && s.next < |s.chunks|
    case SendOk => s.writer.Blocked? && Room(s) && !s.clientGone
    case SendTimeout => s.writer.Blocked? && !Room(s) && !s.clientGone
    case SendVoid => s.writer.Blocked? && s.clientGone
    case Interrupt => s.writer.Blocked?
    case EachEnds => s.writer.Between? && s.next == |s.chunks|
    case Rescue => s.writer.Raising?
    case CutSent => s.writer.Cutting? && (Room(s) || s.clientGone)
    case Abort => s.supervisor.Away?
    case SupSent => s.supervisor.SupCutting? && (Room(s) || s.clientGone)
    case Consume => s.channel != [] && !s.clientGone
    case ClientLeaves => !s.clientGone
  }

  function Push(s: State, item: Item): State {
    if s.clientGone then s else s.(channel := s.channel + [item])
  }

  function Apply(s: State, a: Action): State
    requires Enabled(s, a)
  {
    match a
    case Write =>
      if s.bodyTx then s.(writer := Blocked(s.chunks[s.next]), next := s.next + 1)
      else s.(writer := Raising)          // stream not started or already finished
    case SendOk => Push(s, Frame(s.writer.chunk)).(writer := Between)
    case SendTimeout => s
    case SendVoid => s.(writer := Between)
    case Interrupt => s.(writer := Raising)
    case EachEnds => if s.completes then s.(writer := Finished, bodyTx := false) else s.(writer := Raising)
    case Rescue => if s.bodyTx then s.(writer := Cutting, bodyTx := false) else s.(writer := Rescued)
    case CutSent => Push(s, Error).(writer := Rescued)
    case Abort => if s.bodyTx then s.(supervisor := SupCutting, bodyTx := false) else s.(supervisor := Gone)
    case SupSent => Push(s, Error).(supervisor := Gone)
    case Consume =>
      var t := s.(channel := s.channel[1..], seen := s.seen + [s.channel[0]]);
      if s.channel[0].Error? then t.(clientGone := true) else t    // hyper aborts the connection
    case ClientLeaves => s.(clientGone := true)
  }

  predicate Legal(s: State, run: seq<Action>)
    decreases |run|
  {
    run == [] || (Enabled(s, run[0]) && Legal(Apply(s, run[0]), run[1..]))
  }

  function Exec(s: State, run: seq<Action>): State
    requires Legal(s, run)
    decreases |run|
  {
    if run == [] then s else Exec(Apply(s, run[0]), run[1..])
  }

  // ----- what the client sees

  function Frames(chunks: seq<Chunk>): seq<Item> {
    seq(|chunks|, i requires 0 <= i < |chunks| => Frame(chunks[i]))
  }

  /** No sender is left and nothing is queued: hyper ends the body cleanly. */
  predicate EndsCleanly(s: State) {
    && !s.bodyTx && !s.writer.Blocked? && !s.writer.Cutting? && !s.supervisor.SupCutting?
    && s.channel == [] && !s.clientGone
  }

  /** Frames handed over so far: the one a blocked or interrupted writer holds does not count. */
  function Handed(s: State): int {
    if s.writer.Blocked? then s.next - 1 else s.next
  }

  /** Everything ever queued, in order. */
  function Queued(s: State): seq<Item> {
    s.seen + s.channel
  }

  /** The items are the first chunks in order up to the first error frame. */
  ghost predicate InOrder(items: seq<Item>, chunks: seq<Chunk>) {
    exists n: nat :: PrefixThen(items, chunks, n)
  }

  predicate PrefixThen(items: seq<Item>, chunks: seq<Chunk>, n: nat) {
    && n <= |chunks| && n <= |items| && items[..n] == Frames(chunks)[..n]
    && (n < |items| ==> items[n] == Error)
  }

  predicate WriterOk(s: State) {
    && s.next <= |s.chunks|
    && (s.writer.Blocked? ==> s.next > 0 && s.writer.chunk == s.chunks[s.next - 1])
    && (s.writer.Finished? ==> s.completes && s.next == |s.chunks|)
    && (s.writer.Finished? || s.writer.Cutting? || s.writer.Rescued? || s.supervisor.SupCutting? ==> !s.bodyTx)
  }

  predicate Delivering(w: Writer) {
    w.Between? || w.Blocked? || w.Finished?
  }

  ghost predicate FlowOk(s: State)
    requires WriterOk(s)
  {
    && InOrder(Queued(s), s.chunks)
    && (Error in s.seen ==> s.clientGone)
    // until someone cuts the stream, what was queued is exactly what was handed over
    && (!s.clientGone && Error !in Queued(s) && Delivering(s.writer) ==> Queued(s) == Frames(s.chunks)[..Handed(s)])
    // the sender leaves the responder by finish or by a cut
    && (!s.clientGone && !s.bodyTx ==>
          s.writer.Finished? || s.writer.Cutting? || s.supervisor.SupCutting? || Error in Queued(s))
  }

  ghost predicate Inv(s: State) {
    WriterOk(s) && FlowOk(s)
  }

  /** A frame or an error after an ordered queue leaves it ordered, as long as frames come next in turn. */
  lemma PushOrdered(items: seq<Item>, chunks: seq<Chunk>, item: Item)
    requires InOrder(items, chunks)
    requires item.Frame? && Error !in items ==>
             |items| < |chunks| && items == Frames(chunks)[..|items|] && item.chunk == chunks[|items|]
    ensures InOrder(items + [item], chunks)
  {
    var n: nat :| PrefixThen(items, chunks, n);
    if n < |items| {
      assert PrefixThen(items + [item], chunks, n);
    } else if item.Error? {
      assert PrefixThen(items + [item], chunks, n);
    } else {
      FramesClean(chunks, n);
      assert PrefixThen(items + [item], chunks, n + 1);
    }
  }

  lemma FramesClean(chunks: seq<Chunk>, n: nat)
    requires n <= |chunks|
    ensures Error !in Frames(chunks)[..n]
  {
  }

  lemma ConsumeKeepsQueue(s: State)
    requires Enabled(s, Consume)
    ensures Queued(Apply(s, Consume)) == Queued(s)
  {
    assert s.channel == [s.channel[0]] + s.channel[1..];
  }

  lemma SendKeeps(s: State)
    requires Inv(s) && Enabled(s, SendOk)
    ensures Inv(Apply(s, SendOk))
  {
    assert Queued(Apply(s, SendOk)) == Queued(s) + [Frame(s.writer.chunk)];
    PushOrdered(Queued(s), s.chunks, Frame(s.writer.chunk));
  }

  /** An error frame goes in, from the writer's side or the supervisor's. */
  lemma CutKeeps(s: State, a: Action)
    requires Inv(s) && Enabled(s, a) && (a.CutSent? || a.SupSent?)
    ensures Inv(Apply(s, a))
  {
    if !s.clientGone {
      assert Queued(Apply(s, a)) == Queued(s) + [Error];
      PushOrdered(Queued(s), s.chunks, Error);
    }
  }

  lemma StepKeepsInv(s: State, a: Action)
    requires Inv(s) && Enabled(s, a)
    ensures Inv(Apply(s, a))
  {
    match a {
      case SendOk => SendKeeps(s);
      case CutSent => CutKeeps(s, a);
      case SupSent => CutKeeps(s, a);
      case Consume => ConsumeKeepsQueue(s);
      case _ =>
    }
  }

  lemma {:induction false} RunKeepsInv(s: State, run: seq<Action>)
    requires Inv(s) && Legal(s, run)
    ensures Inv(Exec(s, run)) && Exec(s, run).chunks == s.chunks && Exec(s, run).completes == s.completes
    decreases |run|
  {
    if run != [] {
      StepKeepsInv(s, run[0]);
      RunKeepsInv(Apply(s, run[0]), run[1..]);
    }
  }

  lemma StartInv(chunks: seq<Chunk>, completes: bool)
    ensures Inv(Start(chunks, completes))
  {
    var start := Start(chunks, completes);
    assert Queued(start) == [];
    assert PrefixThen(Queued(start), chunks, 0);
  }

  /** Whatever the retries, the client and the supervisor do: what the client sees is the app's chunks in
      order, without loss or repetition, up to an error frame if there is one. */
  lemma ChunksInOrder(chunks: seq<Chunk>, completes: bool, run: seq<Action>, s: State)
    requires Legal(Start(chunks, completes), run) && s == Exec(Start(chunks, completes), run)
    ensures InOrder(s.seen, chunks)
  {
    StartInv(chunks, completes);
    RunKeepsInv(Start(chunks, completes), run);
    var n: nat :| PrefixThen(Queued(s), chunks, n);
    var m: nat := if n <= |s.seen| then n else |s.seen|;
    assert s.seen[..m] == Queued(s)[..m];
    assert Frames(chunks)[..m] == Frames(chunks)[..n][..m];
    assert Queued(s)[..m] == Queued(s)[..n][..m];
    assert PrefixThen(s.seen, chunks, m);
  }

  /** A clean end of stream is never faked: it is seen only after `each` returned without raising, and
      then the client has every chunk. */
  lemma CleanEndIsComplete(chunks: seq<Chunk>, completes: bool, run: seq<Action>, s: State)
    requires Legal(Start(chunks, completes), run) && s == Exec(Start(chunks, completes), run)
    requires EndsCleanly(s)
    ensures completes && s.seen == Frames(chunks)
  {
    StartInv(chunks, completes);
    RunKeepsInv(Start(chunks, completes), run);
    assert Queued(s) == s.seen;
    assert Frames(chunks)[..|chunks|] == Frames(chunks);
  }

  /** A raise is never swallowed: once the rescue is through, a client that is still there has the error frame, or
      it is queued, or the supervisor is about to send one. */
  lemma RaiseIsCut(chunks: seq<Chunk>, completes: bool, run: seq<Action>, s: State)
    requires Legal(Start(chunks, completes), run) && s == Exec(Start(chunks, completes), run)
    requires s.writer.Rescued? && !s.clientGone
    ensures Error in s.channel || s.supervisor.SupCutting?
  {
    StartInv(chunks, completes);
    RunKeepsInv(Start(chunks, completes), run);
  }

  // ----- every stream can end

  /** One action before a run. */
  lemma Before(s: State, first: Action, rest: seq<Action>)
    requires Enabled(s, first) && Legal(Apply(s, first), rest)
    ensures Legal(s, [first] + rest) && Exec(s, [first] + rest) == Exec(Apply(s, first), rest)
  {
    assert ([first] + rest)[1..] == rest;
  }

  /** Nobody gives up: no abort, no interrupt, and the client stays. */
  predicate Calm(run: seq<Action>) {
    Abort !in run && Interrupt !in run && ClientLeaves !in run
  }

  function WriterRank(w: Writer): nat {
    match w
    case Blocked(_) => 5
    case Between => 3
    case Raising => 2
    case Cutting => 1
    case _ => 0
  }

  /** What writer and supervisor still have to do. */
  function Work(s: State): nat
    requires s.next <= |s.chunks|
  {
    4 * (|s.chunks| - s.next) + WriterRank(s.writer) + if s.supervisor.SupCutting? then 1 else 0
  }

  /** What happens next when nobody gives up: the client takes what is there, then the next frame is made. */
  function Onward(s: State): Action
    requires !s.clientGone && !EndsCleanly(s) && (s.channel == [] ==> Working(s))
  {
    if s.channel != [] then Consume
    else if s.supervisor.SupCutting? then SupSent
    else
      match s.writer
      case Between => if s.next < |s.chunks| then Write else EachEnds
      case Blocked(_) => SendOk
      case Raising => Rescue
      case _ => CutSent
  }

  /** Somebody has something left to send. */
  predicate Working(s: State) {
    s.supervisor.SupCutting? || s.writer.Between? || s.writer.Blocked? || s.writer.Raising? || s.writer.Cutting?
  }

  lemma SomebodyWorks(s: State)
    requires Inv(s) && !s.clientGone && !EndsCleanly(s) && s.channel == []
    ensures Working(s)
  {
    assert Queued(s) == s.seen;
  }

  lemma OnwardGets(s: State)
    requires Inv(s) && !s.clientGone && !EndsCleanly(s) && (s.channel == [] ==> Working(s))
    ensures Enabled(s, Onward(s)) && Calm([Onward(s)])
    ensures var t := Apply(s, Onward(s));
      && t.next <= |t.chunks|
      && (Work(t) < Work(s) || (Work(t) == Work(s) && |t.channel| < |s.channel|))
      && (t.clientGone ==> Error in t.seen)
  {
  }

  /** From every state in which the client is still there: if nobody gives up, the stream comes to its end, a clean
      one or an error frame that the client has seen. */
  lemma {:induction false} StreamCanEnd(s: State) returns (run: seq<Action>)
    requires Inv(s) && !s.clientGone
    ensures Legal(s, run) && Calm(run)
    ensures EndsCleanly(Exec(s, run)) || Error in Exec(s, run).seen
    decreases Work(s), |s.channel|
  {
    if EndsCleanly(s) {
      run := [];
    } else {
      if s.channel == [] {
        SomebodyWorks(s);
      }
      var a := Onward(s);
      OnwardGets(s);
      StepKeepsInv(s, a);
      var rest := [];
      if !Apply(s, a).clientGone {
        rest := StreamCanEnd(Apply(s, a));
      }
      Before(s, a, rest);
      assert a in [a];
      run := [a] + rest;
    }
  }

  /** The app, the client and nobody else: after `k` chunks. */
  function Delivered(chunks: seq<Chunk>, completes: bool, k: nat): State
    requires k <= |chunks|
  {
    Start(chunks, completes).(next := k, seen := Frames(chunks)[..k])
  }

  lemma ChunkThrough(chunks: seq<Chunk>, completes: bool, k: nat, rest: seq<Action>)
    requires k < |chunks| && Legal(Delivered(chunks, completes, k + 1), rest)
    ensures var run := [Write] + ([SendOk] + ([Consume] + rest));
      && Legal(Delivered(chunks, completes, k), run)
      && Exec(Delivered(chunks, completes, k), run) == Exec(Delivered(chunks, completes, k + 1), rest)
  {
    var s := Delivered(chunks, completes, k);
    var s1 := Apply(s, Write);
    var s2 := Apply(s1, SendOk);
    assert Frames(chunks)[..k + 1] == Frames(chunks)[..k] + [Frame(chunks[k])];
    assert Apply(s2, Consume) == Delivered(chunks, completes, k + 1);
    Before(s2, Consume, rest);
    Before(s1, SendOk, [Consume] + rest);
    Before(s, Write, [SendOk] + ([Consume] + rest));
  }

  /** Left to themselves, app and client get every chunk through, and then the end `each` deserves: a clean one if it
      returned, an error frame if it raised. */
  lemma {:induction false} Undisturbed(chunks: seq<Chunk>, completes: bool, k: nat) returns (run: seq<Action>)
    requires k <= |chunks|
    ensures Legal(Delivered(chunks, completes, k), run)
    ensures var t := Exec(Delivered(chunks, completes, k), run);
      if completes then EndsCleanly(t) && t.seen == Frames(chunks) else t.seen == Frames(chunks) + [Error]
    decreases |chunks| - k
  {
    if k < |chunks| {
      var rest := Undisturbed(chunks, completes, k + 1);
      ChunkThrough(chunks, completes, k, rest);
      run := [Write] + ([SendOk] + ([Consume] + rest));
    } else {
      var s := Delivered(chunks, completes, k);
      var s1 := Apply(s, EachEnds);
      assert Frames(chunks)[..k] == Frames(chunks);
      if completes {
        run := [EachEnds] + [];
      } else {
        var s2 := Apply(s1, Rescue);
        var s3 := Apply(s2, CutSent);
        Before(s3, Consume, []);
        Before(s2, CutSent, [Consume] + []);
        Before(s1, Rescue, [CutSent] + ([Consume] + []));
        run := [EachEnds] + ([Rescue] + ([CutSent] + ([Consume] + [])));
      }
      Before(s, EachEnds, run[1..]);
    }
  }

  // ----- aborts, and clients that leave

  /** After an abort: the sender is gone, and if the stream was open then, an error frame cuts it. */
  predicate Cut(s: State, wasOpen: bool) {
    && !s.supervisor.Away? && !s.bodyTx
    && (wasOpen ==> s.clientGone || Error in Queued(s) || s.supervisor.SupCutting?)
  }

  lemma CutStep(s: State, a: Action, wasOpen: bool)
    requires Inv(s) && Cut(s, wasOpen) && Enabled(s, a)
    ensures Cut(Apply(s, a), wasOpen)
  {
    if a.Consume? {
      ConsumeKeepsQueue(s);
    }
  }

  lemma {:induction false} CutRun(s: State, run: seq<Action>, wasOpen: bool)
    requires Inv(s) && Cut(s, wasOpen) && Legal(s, run)
    ensures Inv(Exec(s, run)) && Cut(Exec(s, run), wasOpen)
    decreases |run|
  {
    if run != [] {
      CutStep(s, run[0], wasOpen);
      StepKeepsInv(s, run[0]);
      CutRun(Apply(s, run[0]), run[1..], wasOpen);
    }
  }

  /** A stream that is open when the supervisor aborts never ends cleanly, whatever happens after it. */
  lemma AbortCuts(s: State, run: seq<Action>)
    requires Inv(s) && s.bodyTx && Legal(s, [Abort] + run)
    ensures !EndsCleanly(Exec(s, [Abort] + run))
  {
    assert ([Abort] + run)[1..] == run;
    StepKeepsInv(s, Abort);
    CutRun(Apply(s, Abort), run, true);
    CutEnds(Exec(s, [Abort] + run));
  }

  lemma CutEnds(s: State)
    requires Inv(s) && Cut(s, true)
    ensures !EndsCleanly(s)
  {
    assert s.channel == [] ==> Queued(s) == s.seen;
  }

  /** The app notices nothing of a client that left: unless it is aborted or interrupted, `each` runs to where it
      returns, or raises of its own accord. */
  predicate Unaware(s: State) {
    && s.supervisor.Away? && (s.bodyTx <==> s.writer.Between? || s.writer.Blocked? || s.writer.Raising?)
    && (s.writer.Raising? || s.writer.Cutting? || s.writer.Rescued? ==> !s.completes && s.next == |s.chunks|)
  }

  lemma {:induction false} UnawareRun(s: State, run: seq<Action>)
    requires Unaware(s) && s.next <= |s.chunks| && Legal(s, run) && Abort !in run && Interrupt !in run
    ensures Unaware(Exec(s, run)) && Exec(s, run).completes == s.completes
    decreases |run|
  {
    if run != [] {
      assert run == [run[0]] + run[1..];
      UnawareRun(Apply(s, run[0]), run[1..]);
    }
  }

  lemma OnlyItsOwnRaise(chunks: seq<Chunk>, completes: bool, run: seq<Action>, s: State)
    requires Legal(Start(chunks, completes), run) && s == Exec(Start(chunks, completes), run)
    requires Abort !in run && Interrupt !in run
    ensures completes ==> !s.writer.Raising? && !s.writer.Cutting? && !s.writer.Rescued?
    ensures !completes ==> !s.writer.Finished?
  {
    UnawareRun(Start(chunks, completes), run);
    StartInv(chunks, completes);
    RunKeepsInv(Start(chunks, completes), run);
  }
}
